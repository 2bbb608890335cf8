/** The value-level view of the id tree: a store of layers, the ghost shape that
    places every layer at one position, and the invariant that links them. */
module IdrTrie {

  /** The address of a layer, or a user pointer in a leaf slot; 0 is the null pointer. */
  type Ptr = nat

  const NULL: Ptr := 0
  const IDR_SIZE := 256
  const MAX_LEVEL := 4
  const MAX_IDR_BIT := 0x8000_0000

  datatype Layer = Layer(prefix: int, layer: int, ary: seq<Ptr>, count: int, bitmap: seq<bool>)

  /** Level 0 holds the leaves; `key` is the id prefix shared by all ids below the layer. */
  datatype Pos = Pos(level: int, key: int)

  type Heap = map<Ptr, Layer>
  type Shape = map<Pos, Ptr>

  /** `chunked` selects what a leaf's `count` and bits mean: for an id map they are
      the allocated slots, for an id allocator the chunks and the full chunks. */
  datatype Trie = Trie(heap: Heap, at: Shape, top: Ptr, layers: int, chunked: bool)

  ghost function Elems(s: seq<Ptr>): set<Ptr> {
    set x | x in s
  }

  // ---------- arithmetic of id digits ----------

  /** id >> (8 * l) */
  function Shr(id: int, l: nat): int {
    if l == 0 then id else Shr(id, l - 1) / 256
  }

  /** q << (8 * l) */
  function Shl(q: int, l: nat): int
    decreases l
  {
    if l == 0 then q else Shl(q * 256, l - 1)
  }

  /** The largest id a tree of the given number of layers can hold. */
  function IdrMax(layers: int): int {
    if layers <= 0 then 0 else if layers < 4 then Shl(1, layers) - 1 else MAX_IDR_BIT - 1
  }

  lemma IdrMaxBound(layers: int)
    requires layers <= 4
    ensures 0 <= IdrMax(layers) < MAX_IDR_BIT
    ensures layers < 4 ==> IdrMax(layers) < 0x100_0000
  {
    assert Shl(1, 1) == 256 && Shl(1, 2) == 65536 && Shl(1, 3) == 65536 * 256;
  }

  lemma IdrMaxMono(a: int, b: int)
    requires a <= b <= 4
    ensures IdrMax(a) <= IdrMax(b)
  {
    assert Shl(1, 1) == 256 && Shl(1, 2) == 65536 && Shl(1, 3) == 65536 * 256;
  }

  lemma {:induction false} ShlGalois(x: int, q: int, l: nat)
    ensures x < Shl(q, l) <==> Shr(x, l) < q
    decreases l
  {
    if l > 0 {
      ShlGalois(x, q * 256, l - 1);
    }
  }

  lemma {:induction false} ShrShl(q: int, l: nat)
    ensures Shr(Shl(q, l), l) == q
    decreases l
  {
    if l > 0 {
      ShrShl(q * 256, l - 1);
    }
  }

  lemma {:induction false} ShrMono(x: int, y: int, l: nat)
    requires x <= y
    ensures Shr(x, l) <= Shr(y, l)
  {
    if l > 0 {
      ShrMono(x, y, l - 1);
    }
  }

  lemma {:induction false} ShrNonNeg(x: int, l: nat)
    ensures x >= 0 <==> Shr(x, l) >= 0
  {
    if l > 0 {
      ShrNonNeg(x, l - 1);
    }
  }

  lemma {:induction false} SharedPrefix(x: int, y: int, l: nat, j: nat)
    requires l <= j && Shr(x, l) == Shr(y, l)
    ensures Shr(x, j) == Shr(y, j)
    decreases j
  {
    if l < j {
      SharedPrefix(x, y, l, j - 1);
    }
  }

  /** Ids within the tree's range agree with the root, whose key is 0. */
  lemma InRange(id: int, layers: int)
    requires 1 <= layers <= 4
    ensures layers < 4 ==> (0 <= id <= IdrMax(layers) <==> Shr(id, layers) == 0)
    ensures layers == 4 ==> (0 <= id <= IdrMax(layers) ==> Shr(id, layers) == 0 && Shr(id, 3) < 128)
    ensures layers == 4 ==> (Shr(id, layers) == 0 && Shr(id, 3) < 128 ==> 0 <= id <= IdrMax(layers))
  {
    ShlGalois(id, 1, layers);
    ShrNonNeg(id, layers);
    if layers == 4 {
      assert Shl(128, 3) == MAX_IDR_BIT;
      ShlGalois(id, 128, 3);
    }
  }

  // ---------- the invariant ----------

  function Kid(q: Pos, i: int): Pos {
    Pos(q.level - 1, q.key * 256 + i)
  }

  function Parent(q: Pos): Pos {
    Pos(q.level + 1, q.key / 256)
  }

  /** The position at level `l` on the path to `id`. */
  function On(id: int, l: nat): Pos {
    Pos(l, Shr(id, l + 1))
  }

  /** The slot that the path to `id` takes in the layer at level `l`. */
  function Slot(id: int, l: nat): int {
    Shr(id, l) % 256
  }

  predicate Full(n: Layer) {
    forall i :: 0 <= i < |n.bitmap| ==> n.bitmap[i]
  }

  predicate Formed(n: Layer) {
    |n.ary| == 256 && |n.bitmap| == 256
  }

  ghost function Busy(n: Layer): set<int> {
    set i | 0 <= i < |n.ary| && n.ary[i] != NULL
  }

  ghost function Marks(n: Layer): set<int> {
    set i | 0 <= i < |n.bitmap| && n.bitmap[i]
  }

  /** Every position is held by its own live layer of the right level. */
  ghost predicate Placed(t: Trie) {
    && (forall q :: q in t.at ==>
          && 0 <= q.level < t.layers && 0 <= q.key
          && t.at[q] != NULL && t.at[q] in t.heap
          && Formed(t.heap[t.at[q]]) && t.heap[t.at[q]].layer == q.level)
    && (forall q, r :: q in t.at && r in t.at && t.at[q] == t.at[r] ==> q == r)
  }

  ghost predicate Rooted(t: Trie) {
    && 0 <= t.layers <= MAX_LEVEL
    && (t.layers == 0 ==> t.top == NULL)
    && (t.layers > 0 ==> Pos(t.layers - 1, 0) in t.at && t.at[Pos(t.layers - 1, 0)] == t.top)
    && (forall q :: q in t.at && q.level == t.layers - 1 ==> q.key == 0)
    && (t.layers == 4 ==> forall i :: 128 <= i < 256 ==> Kid(Pos(3, 0), i) !in t.at)
  }

  /** A slot of an inner layer holds exactly the layer placed below it. */
  ghost predicate Linked(t: Trie)
    requires Placed(t)
  {
    && (forall q {:trigger Parent(q)} :: q in t.at && q.level < t.layers - 1 ==> Parent(q) in t.at)
    && (forall q, i
            {:trigger Kid(q, i)} {:trigger t.heap[t.at[q]].ary[i]} :: q in t.at && q.level > 0 && 0 <= i < 256 ==>
          t.heap[t.at[q]].ary[i] == if Kid(q, i) in t.at then t.at[Kid(q, i)] else NULL)
  }

  /** A parent's bit is set exactly when the child's bitmap is full. */
  ghost predicate Marked(t: Trie)
    requires Placed(t)
  {
    forall q, i {:trigger Kid(q, i)} {:trigger t.heap[t.at[q]].bitmap[i]} ::
      q in t.at && q.level > 0 && 0 <= i < 256 ==>
      (t.heap[t.at[q]].bitmap[i] <==> Kid(q, i) in t.at && Full(t.heap[t.at[Kid(q, i)]]))
  }

  /** A node's count matches its occupancy; a leaf's bits match its slots. */
  ghost predicate CountOk(n: Layer, q: Pos, chunked: bool)
    requires Formed(n)
  {
    if q.level == 0 && !chunked then
      && n.prefix == q.key * 256
      && n.count == |Marks(n)|
      && Busy(n) <= Marks(n)
    else
      && n.count == |Busy(n)|
      && Marks(n) <= Busy(n)
  }

  ghost predicate Counted(t: Trie)
    requires Placed(t)
  {
    forall q :: q in t.at ==> CountOk(t.heap[t.at[q]], q, t.chunked)
  }

  ghost predicate Inv(t: Trie)
    ensures Inv(t) ==> Placed(t)
  {
    Placed(t) && Rooted(t) && Linked(t) && Marked(t) && Counted(t)
  }

  /** The leaf bit of `id` is set: for an id map, `id` is allocated. */
  ghost predicate Taken(t: Trie, id: int)
    requires Placed(t)
  {
    id >= 0 && On(id, 0) in t.at && t.heap[t.at[On(id, 0)]].bitmap[Slot(id, 0)]
  }

  /** What the leaf slot of `id` holds. */
  ghost function Held(t: Trie, id: int): Ptr
    requires Placed(t)
  {
    if id >= 0 && On(id, 0) in t.at then t.heap[t.at[On(id, 0)]].ary[Slot(id, 0)] else NULL
  }

  // ---------- consequences ----------

  /** What is known of the layer at one position. */
  lemma Live(t: Trie, q: Pos)
    requires Placed(t) && q in t.at
    ensures t.at[q] != NULL && t.at[q] in t.heap && t.at[q] in t.at.Values
    ensures Formed(t.heap[t.at[q]]) && t.heap[t.at[q]].layer == q.level && 0 <= q.level < t.layers && 0 <= q.key
  {
  }

  lemma KidOnPath(id: int, l: nat)
    requires l > 0
    ensures Kid(On(id, l), Slot(id, l)) == On(id, l - 1)
    ensures Parent(On(id, l - 1)) == On(id, l)
    ensures 0 <= Slot(id, l) < 256
  {
  }

  lemma KidParent(q: Pos, i: int)
    requires 0 <= i < 256
    ensures Parent(Kid(q, i)) == q
    ensures Kid(q, i).key % 256 == i
  {
  }

  lemma OnRoot(t: Trie, id: int)
    requires Inv(t) && t.layers > 0 && 0 <= id <= IdrMax(t.layers)
    ensures On(id, t.layers - 1) in t.at && t.at[On(id, t.layers - 1)] == t.top
  {
    InRange(id, t.layers);
  }

  /** If the path to `id` reaches level `l`, it passes through every level above. */
  lemma {:induction false} PathUp(t: Trie, id: int, l: nat, m: nat)
    requires Placed(t) && Linked(t)
    requires l <= m < t.layers && On(id, l) in t.at
    ensures On(id, m) in t.at
    decreases m - l
  {
    if l < m {
      KidOnPath(id, l + 1);
      assert Parent(On(id, l)) in t.at;
      PathUp(t, id, l + 1, m);
    }
  }

  /** A set bit at any level means that every id below that slot is taken. */
  lemma {:induction false} MarkMeansTaken(t: Trie, id: int, l: nat)
    requires Placed(t) && Linked(t) && Marked(t)
    requires id >= 0 && On(id, l) in t.at && t.heap[t.at[On(id, l)]].bitmap[Slot(id, l)]
    ensures Taken(t, id)
    decreases l
  {
    if l > 0 {
      KidOnPath(id, l);
      KidOnPath(id, 1);
      MarkMeansTaken(t, id, l - 1);
    }
  }

  /** Taken ids lie in the tree's range, whatever the shape. */
  lemma TakenInRange(t: Trie, id: int)
    requires Placed(t) && Rooted(t) && Linked(t)
    requires id >= 0 && On(id, 0) in t.at
    ensures t.layers > 0 && id <= IdrMax(t.layers) < MAX_IDR_BIT
  {
    PathUp(t, id, 0, t.layers - 1);
    if t.layers == 4 {
      PathUp(t, id, 0, 2);
      KidOnPath(id, 3);
    }
    InRange(id, t.layers);
    IdrMaxBound(t.layers);
  }

  /** The parent bit at a slot is set exactly when all ids below the slot are taken. */
  lemma {:induction false} MarkIffAllTaken(t: Trie, q: Pos, i: int)
    requires Inv(t) && q in t.at && 0 <= i < 256
    ensures t.heap[t.at[q]].bitmap[i] <==> forall id :: id >= 0 && Shr(id, q.level) == q.key * 256 + i ==> Taken(t, id)
    decreases q.level
  {
    var n := q.key * 256 + i;
    if t.heap[t.at[q]].bitmap[i] {
      forall id | id >= 0 && Shr(id, q.level) == n ensures Taken(t, id) {
        assert On(id, q.level) == q && Slot(id, q.level) == i;
        MarkMeansTaken(t, id, q.level);
      }
    } else {
      MissingBelow(t, q, i);
    }
  }

  /** Below a clear bit there is an id that is not taken. */
  lemma {:induction false} MissingBelow(t: Trie, q: Pos, i: int)
    requires Inv(t) && q in t.at && 0 <= i < 256 && !t.heap[t.at[q]].bitmap[i]
    ensures exists id :: id >= 0 && Shr(id, q.level) == q.key * 256 + i && !Taken(t, id)
    decreases q.level
  {
    var n := q.key * 256 + i;
    if q.level == 0 {
      assert Shr(n, 0) == n && !Taken(t, n);
    } else {
      var k := Kid(q, i);
      if k in t.at {
        var j :| 0 <= j < 256 && !t.heap[t.at[k]].bitmap[j];
        MissingBelow(t, k, j);
        var id :| id >= 0 && Shr(id, k.level) == k.key * 256 + j && !Taken(t, id);
        assert Shr(id, q.level) == n;
      } else {
        var id := Shl(n, q.level);
        ShrShl(n, q.level);
        ShrNonNeg(id, q.level);
        assert On(id, q.level - 1) == k;
        if Taken(t, id) {
          PathUp(t, id, 0, q.level - 1);
        }
      }
    }
  }

  /** A lookup hint is null or a live leaf that holds something. */
  ghost predicate HintOk(t: Trie, hint: Ptr)
    requires Placed(t)
  {
    hint != NULL ==> !t.chunked && exists q :: q in t.at && t.at[q] == hint && q.level == 0 && t.heap[hint].count > 0
  }

  // ---------- steps that build the tree ----------

  /** Both trees hand out the same ids and hold the same pointers; hints stay good. */
  ghost predicate Same(t: Trie, u: Trie)
    requires Placed(t) && Placed(u)
  {
    && (forall h :: HintOk(t, h) ==> HintOk(u, h))
    && forall id {:trigger Taken(t, id)} {:trigger Taken(u, id)} {:trigger Held(t, id)} {:trigger Held(u, id)} ::
      (Taken(t, id) <==> Taken(u, id)) && Held(t, id) == Held(u, id)
  }

  /** A layer that allocation may hand out: nothing below it, no bit set. */
  predicate Blank(n: Layer) {
    && Formed(n) && n.count == 0
    && (forall i :: 0 <= i < 256 ==> n.ary[i] == NULL)
    && (forall i :: 0 <= i < 256 ==> !n.bitmap[i])
  }

  lemma AllLive(t: Trie)
    requires Placed(t)
    ensures forall q :: q in t.at ==> t.at[q] in t.heap && t.at[q] in t.at.Values && t.at[q] != NULL
  {
  }

  /** What an inner layer's slot says about the layer below. */
  lemma SlotOf(t: Trie, q: Pos, i: int)
    requires Inv(t) && q in t.at && q.level > 0 && 0 <= i < 256
    ensures t.at[q] in t.heap && Formed(t.heap[t.at[q]])
    ensures t.heap[t.at[q]].ary[i] == if Kid(q, i) in t.at then t.at[Kid(q, i)] else NULL
    ensures Kid(q, i) in t.at ==> t.at[Kid(q, i)] in t.heap && t.at[Kid(q, i)] != NULL
    ensures t.heap[t.at[q]].bitmap[i] <==> Kid(q, i) in t.at && Full(t.heap[t.at[Kid(q, i)]])
  {
    assert Kid(q, i).level == q.level - 1;
  }

  lemma SameHint(t: Trie, u: Trie, hint: Ptr)
    requires Placed(t) && Placed(u) && Same(t, u) && HintOk(t, hint)
    ensures HintOk(u, hint)
  {
  }

  lemma SameRefl(t: Trie)
    requires Placed(t)
    ensures Same(t, t)
  {
  }

  lemma SameTrans(t: Trie, u: Trie, v: Trie)
    requires Placed(t) && Placed(u) && Placed(v) && Same(t, u) && Same(u, v)
    ensures Same(t, v)
  {
  }

  /** Ids skipped when the search moves to slot `m` (256: past the layer) are all taken. */
  lemma Skip(t: Trie, id: int, l: nat, m: int)
    requires Inv(t) && id >= 0 && On(id, l) in t.at
    requires Slot(id, l) <= m <= 256
    requires forall i :: Slot(id, l) <= i < m ==> t.heap[t.at[On(id, l)]].bitmap[i]
    ensures forall j :: id <= j < Shl(Shr(id, l) - Slot(id, l) + m, l) ==> Taken(t, j)
  {
    var q := Shr(id, l) - Slot(id, l) + m;
    forall j | id <= j < Shl(q, l) ensures Taken(t, j) {
      ShlGalois(j, q, l);
      ShrMono(id, j, l);
      assert On(j, l) == On(id, l);
      MarkMeansTaken(t, j, l);
    }
  }

  /** Moving the search to slot `m` of the same layer, or past it. */
  lemma Jump(id: int, l: nat, m: int)
    requires id >= 0 && Slot(id, l) < m <= 256
    ensures id < Shl(Shr(id, l) - Slot(id, l) + m, l)
    ensures Shr(Shl(Shr(id, l) - Slot(id, l) + m, l), l) == Shr(id, l) - Slot(id, l) + m
    ensures Shl(Shr(id, l + 1) + 1, l + 1) == Shl(Shr(id, l) - Slot(id, l) + 256, l)
  {
    var q := Shr(id, l) - Slot(id, l) + m;
    ShlGalois(id, q, l);
    ShrShl(q, l);
  }

  ghost function WithKid(t: Trie, q: Pos, i: int, p: Ptr, n: Layer): Trie
    requires q in t.at && t.at[q] in t.heap && 0 <= i < |t.heap[t.at[q]].ary|
  {
    var up := t.heap[t.at[q]];
    t.(heap := t.heap[p := n][t.at[q] := up.(ary := up.ary[i := p], count := up.count + 1)], at := t.at[Kid(q, i) := p])
  }

  /** When the layer below slot `i` of `q` is missing and `n` may be placed there. */
  ghost predicate CanAdd(t: Trie, q: Pos, i: int, p: Ptr, n: Layer) {
    && Inv(t) && q in t.at && q.level > 0 && 0 <= i < 256 && Kid(q, i) !in t.at
    && (q.level == 3 ==> i < 128)
    && p != NULL && p !in t.at.Values
    && Blank(n) && n.layer == q.level - 1
    && (q.level == 1 && !t.chunked ==> n.prefix == Kid(q, i).key * 256)
  }

  /** One more placed layer. */
  lemma PlacedAdd(t: Trie, u: Trie, k: Pos, p: Ptr)
    requires Placed(t) && k !in t.at && u.at == t.at[k := p] && t.layers <= u.layers
    requires p != NULL && p !in t.at.Values && p in u.heap && Formed(u.heap[p]) && u.heap[p].layer == k.level
    requires 0 <= k.level < u.layers && 0 <= k.key
    requires forall r ::
        r in t.at ==> t.at[r] in u.heap && Formed(u.heap[t.at[r]]) && u.heap[t.at[r]].layer == t.heap[t.at[r]].layer
    ensures Placed(u) && forall r :: r in t.at ==> t.at[r] != p
  {
    forall r | r in t.at ensures t.at[r] != p { assert t.at[r] in t.at.Values; }
  }

  lemma AddKidPlaced(t: Trie, q: Pos, i: int, p: Ptr, n: Layer)
    requires CanAdd(t, q, i, p, n)
    ensures Placed(WithKid(t, q, i, p, n)) && Rooted(WithKid(t, q, i, p, n))
    ensures forall r :: r in t.at ==> t.at[r] != p
  {
    hide Linked, Marked, Counted, Full;
    var u := WithKid(t, q, i, p, n);
    Live(t, q);
    PlacedAdd(t, u, Kid(q, i), p);
  }

  lemma AddKidLinked(t: Trie, q: Pos, i: int, p: Ptr, n: Layer)
    requires CanAdd(t, q, i, p, n)
    requires Placed(WithKid(t, q, i, p, n))
    ensures Linked(WithKid(t, q, i, p, n)) && Marked(WithKid(t, q, i, p, n))
  {
    var u := WithKid(t, q, i, p, n);
    var k := Kid(q, i);
    KidParent(q, i);
    assert !n.bitmap[0];
    forall r, j | r in u.at && r.level > 0 && 0 <= j < 256
      ensures u.heap[u.at[r]].ary[j] == if Kid(r, j) in u.at then u.at[Kid(r, j)] else NULL
      ensures u.heap[u.at[r]].bitmap[j] <==> Kid(r, j) in u.at && Full(u.heap[u.at[Kid(r, j)]])
    {
      KidParent(r, j);
      var c := Kid(r, j);
      if r == k {
        assert c in t.at ==> Parent(c) in t.at;
      } else if c == k {
        assert r == q && j == i;
      } else {
        assert u.at[r] == t.at[r];
        assert t.heap[t.at[r]].ary[j] == if c in t.at then t.at[c] else NULL;
        assert u.heap[u.at[r]].bitmap == t.heap[t.at[r]].bitmap;
        if c in t.at {
          assert u.heap[u.at[c]].bitmap == t.heap[t.at[c]].bitmap;
        }
      }
    }
    forall r | r in u.at && r.level < u.layers - 1 ensures Parent(r) in u.at {
      if r != k { assert Parent(r) in t.at; }
    }
  }

  lemma BlankSets(n: Layer)
    requires Blank(n)
    ensures Busy(n) == {} && Marks(n) == {} && !Full(n)
  {
    assert !n.bitmap[0];
  }

  lemma AddKidCounted(t: Trie, q: Pos, i: int, p: Ptr, n: Layer)
    requires CanAdd(t, q, i, p, n)
    requires Placed(WithKid(t, q, i, p, n))
    ensures Counted(WithKid(t, q, i, p, n))
  {
    hide Linked, Marked, Rooted;
    SlotOf(t, q, i);
    var u := WithKid(t, q, i, p, n);
    var up, up' := t.heap[t.at[q]], u.heap[u.at[q]];
    forall r | r in u.at ensures CountOk(u.heap[u.at[r]], r, u.chunked) {
      if r == Kid(q, i) {
        BlankSets(n);
      } else if r == q {
        assert up.ary[i] == NULL;
        assert Busy(up') == Busy(up) + {i};
        assert Marks(up') == Marks(up);
      } else {
        assert t.at[r] in t.at.Values;
        assert u.heap[u.at[r]] == t.heap[t.at[r]];
      }
    }
  }

  /** Creating the missing layer below slot `i`. */
  lemma AddKid(t: Trie, q: Pos, i: int, p: Ptr, n: Layer)
    requires CanAdd(t, q, i, p, n)
    ensures Inv(WithKid(t, q, i, p, n)) && Same(t, WithKid(t, q, i, p, n))
  {
    var u := WithKid(t, q, i, p, n);
    AddKidPlaced(t, q, i, p, n);
    AddKidLinked(t, q, i, p, n);
    AddKidCounted(t, q, i, p, n);
    forall id ensures (Taken(t, id) <==> Taken(u, id)) && Held(t, id) == Held(u, id) {
      var r := On(id, 0);
      if r in t.at {
        assert u.heap[u.at[r]] == t.heap[t.at[r]];
      }
    }
    forall h | HintOk(t, h) ensures HintOk(u, h) {
      if h != NULL {
        var r :| r in t.at && t.at[r] == h && r.level == 0 && t.heap[h].count > 0;
        assert r in u.at && u.at[r] == h;
      }
    }
  }

  lemma InRangeKey(t: Trie, id: int, q: Pos)
    requires Placed(t) && Rooted(t) && Linked(t) && q in t.at && On(id, q.level) == q
    ensures On(id, t.layers - 1) == Pos(t.layers - 1, 0)
  {
    PathUp(t, id, q.level, t.layers - 1);
  }

  /** A tree whose top layer has nothing below it consists of that layer alone. */
  lemma LoneTop(t: Trie)
    requires Inv(t) && t.layers > 0 && Busy(t.heap[t.top]) == {}
    ensures t.at == map[Pos(t.layers - 1, 0) := t.top]
  {
    var root := Pos(t.layers - 1, 0);
    forall q | q in t.at ensures q == root {
      if q.level < t.layers - 1 {
        var id := Shl(q.key, q.level + 1);
        ShrShl(q.key, q.level + 1);
        assert On(id, q.level) == q;
        var i := Slot(id, t.layers - 1);
        assert i !in Busy(t.heap[t.top]);
        KidOnPath(id, t.layers - 1);
        InRangeKey(t, id, q);
        PathUp(t, id, q.level, t.layers - 2);
      }
    }
  }

  ghost function Grown(t: Trie, p: Ptr, n: Layer): Trie {
    t.(heap := t.heap[p := n], at := t.at[Pos(t.layers, 0) := p], top := p, layers := t.layers + 1)
  }

  /** The layer put on top when the tree grows: its first slot is the old top. */
  ghost predicate IsNewTop(t: Trie, n: Layer)
    requires t.top in t.heap
  {
    && Formed(n) && n.layer == t.layers && n.count == 1 && n.ary[0] == t.top
    && (forall i :: 1 <= i < 256 ==> n.ary[i] == NULL && !n.bitmap[i])
    && (n.bitmap[0] <==> Full(t.heap[t.top]))
  }

  lemma GrowLinked(t: Trie, p: Ptr, n: Layer)
    requires Inv(t) && 0 < t.layers < 4 && IsNewTop(t, n)
    requires p != NULL && p !in t.at.Values
    ensures Placed(Grown(t, p, n)) && Linked(Grown(t, p, n)) && Marked(Grown(t, p, n))
  {
    var u := Grown(t, p, n);
    var root := Pos(t.layers, 0);
    PlacedAdd(t, u, root, p);
    forall r, j | r in u.at && r.level > 0 && 0 <= j < 256
      ensures u.heap[u.at[r]].ary[j] == if Kid(r, j) in u.at then u.at[Kid(r, j)] else NULL
      ensures u.heap[u.at[r]].bitmap[j] <==> Kid(r, j) in u.at && Full(u.heap[u.at[Kid(r, j)]])
    {
      var c := Kid(r, j);
      if r == root {
        assert c == Pos(t.layers - 1, j);
      } else {
        assert c != root;
        assert u.heap[u.at[r]] == t.heap[t.at[r]];
      }
    }
    forall r | r in u.at && r.level < u.layers - 1 ensures Parent(r) in u.at {
      if r.level < t.layers - 1 { assert Parent(r) in t.at; }
    }
  }

  /** Adding a layer on top of a tree that is not empty. */
  lemma Grow(t: Trie, p: Ptr, n: Layer)
    requires Inv(t) && 0 < t.layers < 4 && IsNewTop(t, n)
    requires p != NULL && p !in t.at.Values
    ensures Inv(Grown(t, p, n)) && Same(t, Grown(t, p, n))
  {
    var u := Grown(t, p, n);
    GrowLinked(t, p, n);
    forall r | r in u.at ensures CountOk(u.heap[u.at[r]], r, u.chunked) {
      if r == Pos(t.layers, 0) {
        assert Busy(n) == {0};
        assert Marks(n) <= {0};
      } else {
        assert u.heap[u.at[r]] == t.heap[t.at[r]];
      }
    }
    forall id ensures (Taken(t, id) <==> Taken(u, id)) && Held(t, id) == Held(u, id) {
      var r := On(id, 0);
      assert r in t.at ==> u.heap[u.at[r]] == t.heap[t.at[r]];
    }
    forall h | HintOk(t, h) ensures HintOk(u, h) {
      if h != NULL {
        var r :| r in t.at && t.at[r] == h && r.level == 0 && t.heap[h].count > 0;
        assert r in u.at && u.at[r] == h;
      }
    }
  }

  ghost function Raised(t: Trie): Trie
    requires t.top in t.heap
  {
    var n := t.heap[t.top];
    t.(heap := t.heap[t.top := n.(layer := n.layer + 1)], at := map[Pos(t.layers, 0) := t.top], layers := t.layers + 1)
  }

  lemma NoCount(n: Layer, q: Pos, chunked: bool)
    requires Formed(n) && CountOk(n, q, chunked) && n.count == 0
    ensures Blank(n) && Busy(n) == {} && Marks(n) == {} && !Full(n)
  {
    assert 0 !in Marks(n);
    forall i | 0 <= i < 256 ensures n.ary[i] == NULL && !n.bitmap[i] {
      assert i !in Busy(n) && i !in Marks(n);
    }
  }

  /** An empty tree grows by moving its top layer up. */
  lemma Raise(t: Trie)
    requires Inv(t) && 0 < t.layers < 4 && t.heap[t.top].count == 0
    ensures Inv(Raised(t)) && Same(t, Raised(t))
  {
    hide Linked, Marked;
    var u := Raised(t);
    var n := t.heap[t.top];
    NoCount(n, Pos(t.layers - 1, 0), t.chunked);
    LoneTop(t);
    var m := u.heap[t.top];
    assert Busy(m) == {} && Marks(m) == {};
    assert Placed(u) && Rooted(u) && Counted(u);
    RaisedLinked(t);
  }

  lemma RaisedLinked(t: Trie)
    requires 0 <= t.layers < 4 && t.top in t.heap && Blank(t.heap[t.top]) && Placed(Raised(t))
    ensures Linked(Raised(t)) && Marked(Raised(t))
  {
    BlankSets(t.heap[t.top]);
  }

  /** A tree of one blank leaf. */
  lemma Sprout(t: Trie, p: Ptr, n: Layer)
    requires Inv(t) && t.layers == 0 && p != NULL
    requires Blank(n) && n.layer == 0 && (!t.chunked ==> n.prefix == 0)
    ensures var u := t.(heap := t.heap[p := n], at := map[Pos(0, 0) := p], top := p, layers := 1);
            Inv(u) && Same(t, u)
  {
    BlankSets(n);
  }

  /** The invariant speaks only of the layers in the tree. */
  lemma Frame(t: Trie, u: Trie)
    requires Inv(t) && u == t.(heap := u.heap)
    requires forall q :: q in t.at ==> t.at[q] in u.heap && u.heap[t.at[q]] == t.heap[t.at[q]]
    ensures Inv(u) && Same(t, u)
  {
    forall r, j | r in u.at && r.level > 0 && 0 <= j < 256
      ensures u.heap[u.at[r]].ary[j] == if Kid(r, j) in u.at then u.at[Kid(r, j)] else NULL
      ensures u.heap[u.at[r]].bitmap[j] <==> Kid(r, j) in u.at && Full(u.heap[u.at[Kid(r, j)]])
    {
      SlotOf(t, r, j);
    }
    assert Linked(u) && Marked(u);
    forall h | HintOk(t, h) ensures HintOk(u, h) {
      if h != NULL {
        var r :| r in t.at && t.at[r] == h && r.level == 0 && t.heap[h].count > 0;
        assert r in u.at && u.at[r] == h;
      }
    }
  }

  // ---------- filling a slot ----------

  /** The tree is consistent except that the parent's bit above level `l` of the path is still clear. */
  ghost predicate MarkedBut(t: Trie, id: int, l: nat)
    requires Placed(t)
  {
    forall q, i {:trigger Kid(q, i)} {:trigger t.heap[t.at[q]].bitmap[i]} ::
      q in t.at && q.level > 0 && 0 <= i < 256 ==>
      if q == On(id, l + 1) && i == Slot(id, l + 1) then !t.heap[t.at[q]].bitmap[i]
      else (t.heap[t.at[q]].bitmap[i] <==> Kid(q, i) in t.at && Full(t.heap[t.at[Kid(q, i)]]))
  }

  ghost predicate Pending(t: Trie, id: int, l: nat)
    ensures Pending(t, id, l) ==> Placed(t)
  {
    && Placed(t) && Rooted(t) && Linked(t) && Counted(t) && MarkedBut(t, id, l)
    && id >= 0 && l < t.layers && On(id, l) in t.at && t.at[On(id, l)] in t.heap && Formed(t.heap[t.at[On(id, l)]])
  }

  ghost function WithBit(t: Trie, q: Pos, i: int): Trie
    requires q in t.at && t.at[q] in t.heap && 0 <= i < |t.heap[t.at[q]].bitmap|
  {
    var n := t.heap[t.at[q]];
    t.(heap := t.heap[t.at[q] := n.(bitmap := n.bitmap[i := true])])
  }

  /** The walk up stops at a layer that is not full, or at the top. */
  lemma PendingDone(t: Trie, id: int, l: nat)
    requires Pending(t, id, l) && (l == t.layers - 1 || !Full(t.heap[t.at[On(id, l)]]))
    ensures Inv(t)
  {
    KidOnPath(id, l + 1);
    forall q, i | q in t.at && q.level > 0 && 0 <= i < 256
      ensures t.heap[t.at[q]].bitmap[i] <==> Kid(q, i) in t.at && Full(t.heap[t.at[Kid(q, i)]])
    {
      if q == On(id, l + 1) && i == Slot(id, l + 1) {
        assert Kid(q, i) == On(id, l);
      }
    }
  }

  /** Below a full layer the parent's bit is set, which may complete the parent. */
  lemma MarkStep(t: Trie, id: int, l: nat)
    requires Pending(t, id, l) && l + 1 < t.layers && Full(t.heap[t.at[On(id, l)]])
    ensures var q := On(id, l + 1); q in t.at && t.at[q] in t.heap && Formed(t.heap[t.at[q]])
    ensures var u := WithBit(t, On(id, l + 1), Slot(id, l + 1)); Pending(u, id, l + 1) && Same(t, u)
  {
    var q, i := On(id, l + 1), Slot(id, l + 1);
    KidOnPath(id, l + 1);
    assert Parent(On(id, l)) in t.at;
    Live(t, q);
    var n := t.heap[t.at[q]];
    assert !n.bitmap[i];
    var u := WithBit(t, q, i);
    assert n.ary[i] != NULL by { assert Kid(q, i) == On(id, l); }
    MarkStepBits(t, u, id, l);
    MarkStepCounts(t, u, q, i);
    hide Linked, MarkedBut, Rooted, Full, Counted;
    forall r | r in u.at && r != q ensures u.heap[u.at[r]] == t.heap[t.at[r]] {
      assert t.at[r] != t.at[q];
    }
    BitsAbove(t, u, q);
  }

  lemma MarkStepCounts(t: Trie, u: Trie, q: Pos, i: int)
    requires Placed(t) && Counted(t) && q in t.at && q.level > 0 && 0 <= i < 256 && t.at[q] in t.heap
      && Formed(t.heap[t.at[q]])
    requires t.heap[t.at[q]].ary[i] != NULL && u == WithBit(t, q, i) && Placed(u)
    ensures Counted(u)
  {
    var n := t.heap[t.at[q]];
    assert Marks(u.heap[t.at[q]]) == Marks(n) + {i};
    assert Busy(u.heap[t.at[q]]) == Busy(n);
    forall r | r in u.at && r != q ensures u.heap[u.at[r]] == t.heap[t.at[r]] {
      assert t.at[r] != t.at[q];
    }
  }

  lemma MarkStepSlot(t: Trie, u: Trie, id: int, l: nat, q: Pos, i: int)
    requires Pending(t, id, l) && l + 1 < t.layers && Full(t.heap[t.at[On(id, l)]]) && q in t.at && q.level > 0
      && 0 <= i < 256
    requires var k := On(id, l + 1);
            k in t.at && t.at[k] in t.heap && Formed(t.heap[t.at[k]]) && u == WithBit(t, k, Slot(id, l + 1))
            && Placed(u)
    ensures u.heap[u.at[q]].ary[i] == if Kid(q, i) in u.at then u.at[Kid(q, i)] else NULL
    ensures if q == On(id, l + 2) && i == Slot(id, l + 2) then !u.heap[u.at[q]].bitmap[i]
            else (u.heap[u.at[q]].bitmap[i] <==> Kid(q, i) in u.at && Full(u.heap[u.at[Kid(q, i)]]))
  {
    hide Counted, Rooted;
    var k, s := On(id, l + 1), Slot(id, l + 1);
    KidOnPath(id, l + 1);
    KidOnPath(id, l + 2);
    KidParent(q, i);
    var c := Kid(q, i);
    assert !t.heap[t.at[k]].bitmap[s];
    assert t.heap[t.at[q]].ary[i] == if c in t.at then t.at[c] else NULL;
    if q == On(id, l + 2) && i == Slot(id, l + 2) {
      assert c == k;
      assert !Full(t.heap[t.at[k]]);
    } else if q == k && i == s {
      assert c == On(id, l);
    } else {
      assert c == k ==> q == Parent(k);
    }
  }

  lemma MarkStepBits(t: Trie, u: Trie, id: int, l: nat)
    requires Pending(t, id, l) && l + 1 < t.layers && Full(t.heap[t.at[On(id, l)]])
    requires var q := On(id, l + 1);
            q in t.at && t.at[q] in t.heap && Formed(t.heap[t.at[q]]) && u == WithBit(t, q, Slot(id, l + 1))
    ensures Placed(u) && Rooted(u) && Linked(u) && MarkedBut(u, id, l + 1)
  {
    hide Counted, Full;
    assert Placed(u);
    forall q, i | q in u.at && q.level > 0 && 0 <= i < 256
      ensures u.heap[u.at[q]].ary[i] == if Kid(q, i) in u.at then u.at[Kid(q, i)] else NULL
      ensures if q == On(id, l + 2) && i == Slot(id, l + 2) then !u.heap[u.at[q]].bitmap[i]
              else (u.heap[u.at[q]].bitmap[i] <==> Kid(q, i) in u.at && Full(u.heap[u.at[Kid(q, i)]]))
    {
      MarkStepSlot(t, u, id, l, q, i);
    }
  }

  /** Changing the bits of one inner layer changes nothing that users see. */
  lemma BitsAbove(t: Trie, u: Trie, q: Pos)
    requires Placed(t) && Placed(u) && q in t.at && q.level > 0 && u.at == t.at && u.chunked == t.chunked
    requires forall r :: r in t.at && r != q ==> u.heap[u.at[r]] == t.heap[t.at[r]]
    ensures Same(t, u)
  {
    forall h | HintOk(t, h) ensures HintOk(u, h) {
      if h != NULL {
        var r :| r in t.at && t.at[r] == h && r.level == 0 && t.heap[h].count > 0;
        assert r in u.at && u.at[r] == h;
      }
    }
  }

  ghost function Filled(t: Trie, id: int, ptr: Ptr): Trie
    requires On(id, 0) in t.at && t.at[On(id, 0)] in t.heap && Formed(t.heap[t.at[On(id, 0)]])
  {
    var n := t.heap[t.at[On(id, 0)]];
    var i := Slot(id, 0);
    t.(heap := t.heap[t.at[On(id, 0)] :=
         n.(ary := n.ary[i := ptr], count := n.count + 1, bitmap := n.bitmap[i := true])])
  }

  /** `u` binds `id` to `ptr` and is otherwise the same as `t`. */
  ghost predicate Binds(t: Trie, u: Trie, id: int, ptr: Ptr)
    requires Placed(t) && Placed(u)
  {
    forall j {:trigger Taken(u, j)} {:trigger Held(u, j)} ::
      && (Taken(u, j) <==> j == id || Taken(t, j))
      && Held(u, j) == if j == id then ptr else Held(t, j)
  }

  /** A leaf whose slot bit is now set leaves only its parent's bit pending. */
  lemma LeafPending(t: Trie, u: Trie, id: int)
    requires Inv(t) && id >= 0 && On(id, 0) in t.at && u == t.(heap := u.heap) && Placed(u) && Counted(u)
    requires !Taken(t, id)
    requires forall r :: r in t.at && r.level > 0 ==> u.heap[t.at[r]] == t.heap[t.at[r]]
    requires forall r :: r in t.at && r != On(id, 0) ==> u.heap[t.at[r]] == t.heap[t.at[r]]
    ensures Pending(u, id, 0)
  {
    hide Counted;
    KidOnPath(id, 1);
    Live(u, On(id, 0));
    forall q, i | q in u.at && q.level > 0 && 0 <= i < 256
      ensures u.heap[u.at[q]].ary[i] == if Kid(q, i) in u.at then u.at[Kid(q, i)] else NULL
      ensures if q == On(id, 1) && i == Slot(id, 1) then !u.heap[u.at[q]].bitmap[i]
              else (u.heap[u.at[q]].bitmap[i] <==> Kid(q, i) in u.at && Full(u.heap[u.at[Kid(q, i)]]))
    {
      SlotOf(t, q, i);
      KidParent(q, i);
      if q == On(id, 1) && i == Slot(id, 1) {
        assert Kid(q, i) == On(id, 0);
      } else {
        assert Kid(q, i) == On(id, 0) ==> q == Parent(On(id, 0));
      }
    }
  }

  lemma FillSets(n: Layer, i: int, ptr: Ptr)
    requires Formed(n) && 0 <= i < 256 && !n.bitmap[i]
    ensures var m := n.(ary := n.ary[i := ptr], count := n.count + 1, bitmap := n.bitmap[i := true]);
            Marks(m) == Marks(n) + {i} && Busy(m) <= Busy(n) + {i} && |Marks(m)| == |Marks(n)| + 1
  {
    var m := n.(ary := n.ary[i := ptr], count := n.count + 1, bitmap := n.bitmap[i := true]);
    assert Marks(m) == Marks(n) + {i};
  }

  lemma Fill(t: Trie, id: int, ptr: Ptr)
    requires Inv(t) && !t.chunked && id >= 0 && On(id, 0) in t.at && !Taken(t, id)
    ensures t.at[On(id, 0)] in t.heap && Formed(t.heap[t.at[On(id, 0)]])
    ensures var u := Filled(t, id, ptr);
            Pending(u, id, 0) && Binds(t, u, id, ptr) && HintOk(u, t.at[On(id, 0)])
  {
    hide Rooted, Linked, Marked;
    var q := On(id, 0);
    Live(t, q);
    var n := t.heap[t.at[q]];
    var u := Filled(t, id, ptr);
    FillSets(n, Slot(id, 0), ptr);
    forall r | r in u.at && r != q ensures u.heap[u.at[r]] == t.heap[t.at[r]] {
      assert t.at[r] != t.at[q];
    }
    assert Placed(u) && Counted(u);
    LeafPending(t, u, id);
    forall j ensures Taken(u, j) <==> j == id || Taken(t, j)
             ensures Held(u, j) == if j == id then ptr else Held(t, j) {
      if j >= 0 && On(j, 0) == q {
        assert j == id <==> Slot(j, 0) == Slot(id, 0);
      }
    }
  }

  // ---------- the map the tree stands for ----------

  /** The allocated ids and the pointers bound to them. */
  ghost function Bindings(t: Trie): map<int, Ptr>
    requires Placed(t)
  {
    map id | 0 <= id < MAX_IDR_BIT && Taken(t, id) :: Held(t, id)
  }

  lemma SameBindings(t: Trie, u: Trie)
    requires Placed(t) && Placed(u) && Same(t, u)
    ensures Bindings(u) == Bindings(t)
  {
  }

  lemma BindsBindings(t: Trie, u: Trie, id: int, ptr: Ptr)
    requires Placed(t) && Placed(u) && Binds(t, u, id, ptr) && 0 <= id < MAX_IDR_BIT
    ensures Bindings(u) == Bindings(t)[id := ptr]
  {
  }

  lemma BindsSame(t: Trie, u: Trie, v: Trie, id: int, ptr: Ptr)
    requires Placed(t) && Placed(u) && Placed(v) && Binds(t, u, id, ptr) && Same(u, v)
    ensures Binds(t, v, id, ptr)
  {
  }

  // ---------- removing a slot ----------

  /** Slot `i` of `q` is where the path to `id` goes. */
  predicate OnPath(id: int, q: Pos, i: int) {
    q.level >= 0 && q == On(id, q.level) && i == Slot(id, q.level)
  }

  /** Parents' bits are right everywhere except perhaps on the path to `id`. */
  ghost predicate MarkedOff(t: Trie, id: int)
    requires Placed(t)
  {
    forall q, i {:trigger Kid(q, i)} {:trigger t.heap[t.at[q]].bitmap[i]} ::
      q in t.at && q.level > 0 && 0 <= i < 256 && !OnPath(id, q, i) ==>
        (t.heap[t.at[q]].bitmap[i] <==> Kid(q, i) in t.at && Full(t.heap[t.at[Kid(q, i)]]))
  }

  /** All but the bits on the path to `id` is consistent. */
  ghost predicate Loose(t: Trie, id: int)
    ensures Loose(t, id) ==> Placed(t)
  {
    Placed(t) && Rooted(t) && Linked(t) && Counted(t) && MarkedOff(t, id) && id >= 0
  }

  lemma InvLoose(t: Trie, id: int)
    requires Inv(t) && id >= 0
    ensures Loose(t, id)
  {
  }

  function ClearBit(n: Layer, i: int): Layer
    requires Formed(n) && 0 <= i < 256
  {
    n.(bitmap := n.bitmap[i := false])
  }

  /** `u` is `t` with the bits on the path to `id` cleared above level `l`. */
  ghost predicate PathCleared(t: Trie, u: Trie, id: int, l: int)
    requires Placed(t)
  {
    && u == t.(heap := u.heap)
    && (forall q :: q in t.at ==>
          && t.at[q] in u.heap
          && u.heap[t.at[q]]
               == (if q.level > l && q == On(id, q.level) then ClearBit(t.heap[t.at[q]], Slot(id, q.level))
                                      else t.heap[t.at[q]]))
  }

  lemma ClearStep(t: Trie, u: Trie, id: int, l: nat)
    requires Placed(t) && PathCleared(t, u, id, l) && On(id, l) in t.at
    ensures t.at[On(id, l)] in u.heap && Formed(u.heap[t.at[On(id, l)]])
    ensures var p := t.at[On(id, l)];
            PathCleared(t, u.(heap := u.heap[p := ClearBit(u.heap[p], Slot(id, l))]), id, l - 1)
  {
    forall q | q in t.at && q != On(id, l) ensures t.at[q] != t.at[On(id, l)] {
    }
  }

  /** Clearing changes no slot, so the path is the same. */
  lemma ClearedSlot(t: Trie, u: Trie, id: int, l: nat)
    requires Placed(t) && Linked(t) && PathCleared(t, u, id, l - 1) && l > 0 && On(id, l) in t.at
    ensures t.at[On(id, l)] in u.heap && Formed(u.heap[t.at[On(id, l)]])
    ensures u.heap[t.at[On(id, l)]].ary[Slot(id, l)] == if On(id, l - 1) in t.at then t.at[On(id, l - 1)] else NULL
  {
    KidOnPath(id, l);
    assert t.heap[t.at[On(id, l)]].ary[Slot(id, l)] == if Kid(On(id, l), Slot(id, l)) in t.at then t.at[On(id, l - 1)]
        else NULL;
  }

  /** On the path to an id that is not taken every bit is clear already. */
  lemma ClearIdle(t: Trie, id: int, l: nat)
    requires Inv(t) && id >= 0 && On(id, l) in t.at && !Taken(t, id)
    ensures t.at[On(id, l)] in t.heap && Formed(t.heap[t.at[On(id, l)]])
    ensures ClearBit(t.heap[t.at[On(id, l)]], Slot(id, l)) == t.heap[t.at[On(id, l)]]
  {
    var n := t.heap[t.at[On(id, l)]];
    if n.bitmap[Slot(id, l)] {
      MarkMeansTaken(t, id, l);
    }
    assert n.bitmap[Slot(id, l) := false] == n.bitmap;
  }

  /** The layer's count is one too high. */
  ghost predicate CountOver(n: Layer, q: Pos, chunked: bool)
    requires Formed(n)
  {
    CountOk(n.(count := n.count - 1), q, chunked)
  }

  /** Only the count at level `l` of the path is one too high; the path's bit there is clear. */
  ghost predicate Over(t: Trie, id: int, l: nat)
    ensures Over(t, id, l) ==> Placed(t)
  {
    && Placed(t) && Rooted(t) && Linked(t) && Marked(t) && id >= 0
    && On(id, l) in t.at && !t.heap[t.at[On(id, l)]].bitmap[Slot(id, l)]
    && CountedBut(t, On(id, l))
  }

  ghost predicate CountedBut(t: Trie, k: Pos)
    requires Placed(t)
  {
    forall q :: q in t.at ==>
      if q == k then CountOver(t.heap[t.at[q]], q, t.chunked) else CountOk(t.heap[t.at[q]], q, t.chunked)
  }

  /** `u` has no binding for `id` and is otherwise the same as `t`. */
  ghost predicate Unbinds(t: Trie, u: Trie, id: int)
    requires Placed(t) && Placed(u)
  {
    forall j {:trigger Taken(u, j)} {:trigger Held(u, j)} ::
      && (Taken(u, j) <==> j != id && Taken(t, j))
      && Held(u, j) == if j == id then NULL else Held(t, j)
  }

  ghost function Emptied(u: Trie, id: int): Trie
    requires On(id, 0) in u.at && u.at[On(id, 0)] in u.heap && Formed(u.heap[u.at[On(id, 0)]])
  {
    var p, i := u.at[On(id, 0)], Slot(id, 0);
    var n := u.heap[p];
    u.(heap := u.heap[p := n.(bitmap := n.bitmap[i := false], ary := n.ary[i := NULL])])
  }

  lemma EmptySets(n: Layer, i: int)
    requires Formed(n) && 0 <= i < 256
    ensures var m := n.(bitmap := n.bitmap[i := false], ary := n.ary[i := NULL]);
            Marks(m) == Marks(n) - {i} && Busy(m) == Busy(n) - {i}
    ensures n.bitmap[i] ==> |Marks(n)| == |Marks(n) - {i}| + 1
    ensures n.ary[i] != NULL ==> |Busy(n)| == |Busy(n) - {i}| + 1
  {
    var m := n.(bitmap := n.bitmap[i := false], ary := n.ary[i := NULL]);
    assert Marks(m) == Marks(n) - {i} && Busy(m) == Busy(n) - {i};
  }

  /** The heap of `v` against that of `t` after the path's bits and the leaf slot are cleared. */
  lemma EmptiedHeap(t: Trie, u: Trie, id: int, q: Pos)
    requires Placed(t) && PathCleared(t, u, id, 0) && On(id, 0) in t.at && q in t.at
    ensures u.at[On(id, 0)] in u.heap && Formed(u.heap[u.at[On(id, 0)]]) && t.at[q] in Emptied(u, id).heap
    ensures Formed(Emptied(u, id).heap[t.at[q]]) && Emptied(u, id).heap[t.at[q]].layer == q.level
    ensures var m, n := Emptied(u, id).heap[t.at[q]], t.heap[t.at[q]];
            m == if q == On(id, 0) then n.(bitmap := n.bitmap[Slot(id, 0) := false], ary := n.ary[Slot(id, 0) := NULL])
                 else if q == On(id, q.level) then ClearBit(n, Slot(id, q.level)) else n
  {
    assert q != On(id, 0) ==> t.at[q] != t.at[On(id, 0)];
  }

  lemma EmptyLeafBits(t: Trie, u: Trie, id: int)
    requires Loose(t, id) && PathCleared(t, u, id, 0) && On(id, 0) in t.at
    ensures u.at[On(id, 0)] in u.heap && Formed(u.heap[u.at[On(id, 0)]])
    ensures var v := Emptied(u, id); Placed(v) && Rooted(v) && Linked(v) && Marked(v)
  {
    hide Counted;
    EmptiedHeap(t, u, id, On(id, 0));
    var v := Emptied(u, id);
    forall q | q in v.at ensures v.at[q] in v.heap && Formed(v.heap[v.at[q]]) && v.heap[v.at[q]].layer == q.level {
      EmptiedHeap(t, u, id, q);
    }
    assert Placed(v);
    forall q, i | q in v.at && q.level > 0 && 0 <= i < 256
      ensures v.heap[v.at[q]].ary[i] == if Kid(q, i) in v.at then v.at[Kid(q, i)] else NULL
      ensures v.heap[v.at[q]].bitmap[i] <==> Kid(q, i) in v.at && Full(v.heap[v.at[Kid(q, i)]])
    {
      EmptiedBits(t, u, id, q, i);
    }
  }

  lemma EmptiedBits(t: Trie, u: Trie, id: int, q: Pos, i: int)
    requires Loose(t, id) && PathCleared(t, u, id, 0) && On(id, 0) in t.at && q in t.at && q.level > 0 && 0 <= i < 256
    requires u.at[On(id, 0)] in u.heap && Formed(u.heap[u.at[On(id, 0)]]) && Placed(Emptied(u, id))
    ensures var v := Emptied(u, id);
            && v.heap[v.at[q]].ary[i] == (if Kid(q, i) in v.at then v.at[Kid(q, i)] else NULL)
            && (v.heap[v.at[q]].bitmap[i] <==> Kid(q, i) in v.at && Full(v.heap[v.at[Kid(q, i)]]))
  {
    hide Counted, Rooted;
    var v := Emptied(u, id);
    var c := Kid(q, i);
    KidParent(q, i);
    EmptiedHeap(t, u, id, q);
    assert t.heap[t.at[q]].ary[i] == if c in t.at then t.at[c] else NULL;
    KidOnPath(id, q.level);
    assert c == On(id, c.level) <==> OnPath(id, q, i);
    if c in t.at {
      EmptiedHeap(t, u, id, c);
      if OnPath(id, q, i) {
        assert !v.heap[v.at[c]].bitmap[Slot(id, c.level)];
      }
    }
  }

  lemma EmptyLeafCounts(t: Trie, u: Trie, id: int, q: Pos)
    requires Loose(t, id) && Taken(t, id) && PathCleared(t, u, id, 0) && q in t.at
    requires u.at[On(id, 0)] in u.heap && Formed(u.heap[u.at[On(id, 0)]]) && Placed(Emptied(u, id))
    ensures var v := Emptied(u, id);
            if q == On(id, 0) then CountOver(v.heap[v.at[q]], q, v.chunked) else CountOk(v.heap[v.at[q]], q, v.chunked)
  {
    hide Linked, Marked, Rooted, MarkedOff;
    EmptiedHeap(t, u, id, q);
    var n := t.heap[t.at[q]];
    if q == On(id, 0) {
      EmptySets(n, Slot(id, 0));
      assert Slot(id, 0) in Marks(n);
    } else if q == On(id, q.level) {
      ClearSets(n, Slot(id, q.level));
    }
  }

  /** With the path's bits and the leaf slot cleared, only the leaf's count is left to adjust. */
  lemma EmptyLeaf(t: Trie, u: Trie, id: int)
    requires Loose(t, id) && Taken(t, id) && PathCleared(t, u, id, 0)
    ensures On(id, 0) in u.at && u.at[On(id, 0)] in u.heap && Formed(u.heap[u.at[On(id, 0)]])
    ensures Over(Emptied(u, id), id, 0) && Unbinds(t, Emptied(u, id), id)
  {
    hide Linked, Marked, Rooted, MarkedOff, Counted, CountOver, CountOk;
    EmptyLeafBits(t, u, id);
    var v := Emptied(u, id);
    var k := On(id, 0);
    forall q | q in v.at
      ensures if q == k then CountOver(v.heap[v.at[q]], q, v.chunked) else CountOk(v.heap[v.at[q]], q, v.chunked)
    {
      EmptyLeafCounts(t, u, id, q);
    }
    forall j ensures (Taken(v, j) <==> j != id && Taken(t, j)) && Held(v, j) == if j == id then NULL else Held(t, j) {
      if j >= 0 && On(j, 0) in t.at {
        EmptiedHeap(t, u, id, On(j, 0));
        assert On(j, 0) == k ==> (j == id <==> Slot(j, 0) == Slot(id, 0));
      }
    }
  }

  lemma ClearSets(n: Layer, i: int)
    requires Formed(n) && 0 <= i < 256
    ensures Marks(ClearBit(n, i)) == Marks(n) - {i} && Busy(ClearBit(n, i)) == Busy(n)
  {
  }

  ghost function Dropped(t: Trie, q: Pos): Trie
    requires q in t.at && t.at[q] in t.heap
  {
    var n := t.heap[t.at[q]];
    t.(heap := t.heap[t.at[q] := n.(count := n.count - 1)])
  }

  lemma OverFacts(t: Trie, id: int, l: nat)
    requires Over(t, id, l)
    ensures On(id, l) in t.at && t.at[On(id, l)] in t.heap && Formed(t.heap[t.at[On(id, l)]])
    ensures t.at[On(id, l)] != NULL && l < t.layers <= 4 && t.heap[t.at[On(id, l)]].count >= 1
    ensures Pos(t.layers - 1, 0) in t.at && t.at[Pos(t.layers - 1, 0)] == t.top
  {
  }

  lemma DropLinked(t: Trie, id: int, l: nat)
    requires Over(t, id, l) && On(id, l) in t.at && t.at[On(id, l)] in t.heap
    ensures var u := Dropped(t, On(id, l)); Placed(u) && Linked(u) && Marked(u)
  {
    hide CountedBut, Rooted;
    var q := On(id, l);
    var u := Dropped(t, q);
    assert Placed(u);
    forall r, j | r in u.at && r.level > 0 && 0 <= j < 256
      ensures u.heap[u.at[r]].ary[j] == if Kid(r, j) in u.at then u.at[Kid(r, j)] else NULL
      ensures u.heap[u.at[r]].bitmap[j] <==> Kid(r, j) in u.at && Full(u.heap[u.at[Kid(r, j)]])
    {
      assert t.heap[t.at[r]].ary[j] == if Kid(r, j) in t.at then t.at[Kid(r, j)] else NULL;
    }
  }

  /** A layer that still holds something stays. */
  lemma DropCount(t: Trie, id: int, l: nat)
    requires Over(t, id, l) && On(id, l) in t.at && t.at[On(id, l)] in t.heap && t.heap[t.at[On(id, l)]].count != 1
    ensures Inv(Dropped(t, On(id, l))) && Same(t, Dropped(t, On(id, l)))
  {
    var q := On(id, l);
    var u := Dropped(t, q);
    DropLinked(t, id, l);
    hide Linked, Marked;
    forall r | r in u.at && r != q ensures u.heap[u.at[r]] == t.heap[t.at[r]] {
      assert t.at[r] != t.at[q];
    }
    assert Placed(u) && Rooted(u) && Counted(u);
    forall h | HintOk(t, h) ensures HintOk(u, h) {
      if h != NULL {
        var r :| r in t.at && t.at[r] == h && r.level == 0 && t.heap[h].count > 0;
        assert r in u.at && u.at[r] == h;
      }
    }
  }

  /** Same ids and pointers; hints other than the layer given up stay good. */
  ghost predicate SameBut(t: Trie, u: Trie, gone: Ptr)
    requires Placed(t) && Placed(u)
  {
    && (forall h :: HintOk(t, h) && h != gone ==> HintOk(u, h))
    && forall id {:trigger Taken(t, id)} {:trigger Taken(u, id)} {:trigger Held(t, id)} {:trigger Held(u, id)} ::
      (Taken(t, id) <==> Taken(u, id)) && Held(t, id) == Held(u, id)
  }

  ghost function Detached(t: Trie, id: int, l: nat): Trie
    requires On(id, l + 1) in t.at && t.at[On(id, l + 1)] in t.heap && Formed(t.heap[t.at[On(id, l + 1)]])
  {
    var p := t.at[On(id, l + 1)];
    t.(heap := t.heap[p := t.heap[p].(ary := t.heap[p].ary[Slot(id, l + 1) := NULL])], at := t.at - {On(id, l)})
  }

  /** The layer whose count reaches 0 holds nothing. */
  lemma OverBlank(t: Trie, id: int, l: nat)
    requires Over(t, id, l) && On(id, l) in t.at && t.at[On(id, l)] in t.heap && t.heap[t.at[On(id, l)]].count == 1
    ensures var n := t.heap[t.at[On(id, l)]]; Formed(n) && Blank(n.(count := 0))
    ensures forall i :: 0 <= i < 256 ==> Kid(On(id, l), i) !in t.at
  {
    var q := On(id, l);
    var n := t.heap[t.at[q]];
    NoCount(n.(count := 0), q, t.chunked);
    forall i | 0 <= i < 256 ensures Kid(q, i) !in t.at {
      if l > 0 {
        assert n.ary[i] == NULL;
      }
    }
  }

  lemma ParentOf(t: Trie, id: int, l: nat)
    requires Over(t, id, l) && l + 1 < t.layers
    ensures var q, k, i := On(id, l), On(id, l + 1), Slot(id, l + 1);
            && q in t.at && t.at[q] in t.heap && k in t.at && t.at[k] in t.heap && Formed(t.heap[t.at[k]]) && k != q
            && !t.heap[t.at[k]].bitmap[i] && t.heap[t.at[k]].ary[i] == t.at[q]
  {
    hide CountedBut;
    var q, k, i := On(id, l), On(id, l + 1), Slot(id, l + 1);
    KidOnPath(id, l + 1);
    assert Parent(q) in t.at;
    assert Kid(k, i) == q;
    Live(t, k);
    Live(t, q);
    assert t.heap[t.at[k]].bitmap[i] <==> Kid(k, i) in t.at && Full(t.heap[t.at[Kid(k, i)]]);
    assert !Full(t.heap[t.at[q]]);
  }

  lemma DetachFrame(t: Trie, id: int, l: nat)
    requires Over(t, id, l) && l + 1 < t.layers
    ensures On(id, l + 1) in t.at && t.at[On(id, l + 1)] in t.heap && Formed(t.heap[t.at[On(id, l + 1)]])
    ensures var u := Detached(t, id, l);
            && Placed(u) && Rooted(u) && On(id, l + 1) in u.at
            && (forall r :: r in u.at ==> r in t.at && r != On(id, l) && u.at[r] == t.at[r])
            && (forall r :: r in u.at && r != On(id, l + 1) ==> u.heap[u.at[r]] == t.heap[t.at[r]])
    ensures !t.heap[t.at[On(id, l + 1)]].bitmap[Slot(id, l + 1)]
    ensures t.heap[t.at[On(id, l + 1)]].ary[Slot(id, l + 1)] == t.at[On(id, l)]
  {
    hide Linked, Marked, CountedBut;
    ParentOf(t, id, l);
    var u := Detached(t, id, l);
    forall r | r in u.at && r != On(id, l + 1) ensures u.heap[u.at[r]] == t.heap[t.at[r]] {
      assert t.at[r] != t.at[On(id, l + 1)];
    }
  }

  lemma DetachedSlot(t: Trie, id: int, l: nat, r: Pos, j: int)
    requires Over(t, id, l) && l + 1 < t.layers && r in t.at && r != On(id, l) && r.level > 0 && 0 <= j < 256
    requires On(id, l + 1) in t.at && t.at[On(id, l + 1)] in t.heap && Formed(t.heap[t.at[On(id, l + 1)]])
    requires Placed(Detached(t, id, l))
    ensures var u := Detached(t, id, l);
            && u.heap[u.at[r]].ary[j] == (if Kid(r, j) in u.at then u.at[Kid(r, j)] else NULL)
            && (u.heap[u.at[r]].bitmap[j] <==> Kid(r, j) in u.at && Full(u.heap[u.at[Kid(r, j)]]))
  {
    hide CountedBut, Rooted;
    var q, k, i := On(id, l), On(id, l + 1), Slot(id, l + 1);
    DetachFrame(t, id, l);
    KidOnPath(id, l + 1);
    KidParent(r, j);
    var c := Kid(r, j);
    assert t.heap[t.at[r]].ary[j] == if c in t.at then t.at[c] else NULL;
    if c == q {
      assert r == k && j == i;
    }
  }

  lemma DetachLinked(t: Trie, id: int, l: nat)
    requires Over(t, id, l) && l + 1 < t.layers
    requires forall i :: 0 <= i < 256 ==> Kid(On(id, l), i) !in t.at
    requires On(id, l + 1) in t.at && t.at[On(id, l + 1)] in t.heap && Formed(t.heap[t.at[On(id, l + 1)]])
    requires Placed(Detached(t, id, l))
    ensures var u := Detached(t, id, l); Linked(u) && Marked(u)
  {
    hide CountedBut, Rooted, Marked, Full;
    var u := Detached(t, id, l);
    forall r, j | r in u.at && r.level > 0 && 0 <= j < 256
      ensures u.heap[u.at[r]].ary[j] == if Kid(r, j) in u.at then u.at[Kid(r, j)] else NULL
    {
      DetachedSlot(t, id, l, r, j);
    }
    forall r | r in u.at && r.level < u.layers - 1 ensures Parent(r) in u.at {
      assert Parent(r) in t.at;
      assert Kid(Parent(r), r.key % 256) == r;
    }
    DetachMarked(t, id, l);
  }

  lemma DetachMarked(t: Trie, id: int, l: nat)
    requires Over(t, id, l) && l + 1 < t.layers
    requires On(id, l + 1) in t.at && t.at[On(id, l + 1)] in t.heap && Formed(t.heap[t.at[On(id, l + 1)]])
    requires Placed(Detached(t, id, l))
    ensures Marked(Detached(t, id, l))
  {
    hide CountedBut, Rooted, Linked, Full;
    var u := Detached(t, id, l);
    forall r, j | r in u.at && r.level > 0 && 0 <= j < 256
      ensures u.heap[u.at[r]].bitmap[j] <==> Kid(r, j) in u.at && Full(u.heap[u.at[Kid(r, j)]])
    {
      DetachedSlot(t, id, l, r, j);
    }
  }

  lemma DetachCounts(t: Trie, id: int, l: nat)
    requires Over(t, id, l) && l + 1 < t.layers
    requires On(id, l + 1) in t.at && t.at[On(id, l + 1)] in t.heap && Formed(t.heap[t.at[On(id, l + 1)]])
    requires Placed(Detached(t, id, l))
    ensures CountedBut(Detached(t, id, l), On(id, l + 1))
  {
    hide Linked, Marked, Rooted;
    var k, i := On(id, l + 1), Slot(id, l + 1);
    DetachFrame(t, id, l);
    Live(t, On(id, l));
    var u := Detached(t, id, l);
    var n, m := t.heap[t.at[k]], u.heap[u.at[k]];
    assert Busy(m) == Busy(n) - {i} && i in Busy(n);
    assert Marks(m) == Marks(n) && i !in Marks(n);
  }

  lemma DetachView(t: Trie, id: int, l: nat)
    requires Over(t, id, l) && l + 1 < t.layers && t.heap[t.at[On(id, l)]].count == 1
    requires On(id, l + 1) in t.at && t.at[On(id, l + 1)] in t.heap && Formed(t.heap[t.at[On(id, l + 1)]])
    requires Placed(Detached(t, id, l))
    ensures SameBut(t, Detached(t, id, l), t.at[On(id, l)])
  {
    hide Linked, Marked, Rooted;
    var q := On(id, l);
    OverBlank(t, id, l);
    DetachFrame(t, id, l);
    var u := Detached(t, id, l);
    forall h | HintOk(t, h) && h != t.at[q] ensures HintOk(u, h) {
      if h != NULL {
        var r :| r in t.at && t.at[r] == h && r.level == 0 && t.heap[h].count > 0;
        assert r in u.at && u.at[r] == h;
      }
    }
    forall j ensures (Taken(t, j) <==> Taken(u, j)) && Held(t, j) == Held(u, j) {
      if j >= 0 && On(j, 0) in t.at && On(j, 0) != q {
        assert On(j, 0) in u.at;
      }
    }
  }

  /** A layer that holds nothing any more is taken out of its parent. */
  lemma Detach(t: Trie, id: int, l: nat)
    requires Over(t, id, l) && l + 1 < t.layers && t.heap[t.at[On(id, l)]].count == 1
    ensures On(id, l + 1) in t.at && t.at[On(id, l + 1)] in t.heap && Formed(t.heap[t.at[On(id, l + 1)]])
    ensures Over(Detached(t, id, l), id, l + 1) && SameBut(t, Detached(t, id, l), t.at[On(id, l)])
  {
    hide Linked, Marked, Rooted, CountedBut;
    OverBlank(t, id, l);
    DetachFrame(t, id, l);
    DetachLinked(t, id, l);
    DetachCounts(t, id, l);
    DetachView(t, id, l);
  }

  lemma DetachTop(t: Trie, id: int)
    requires t.layers > 0 && Over(t, id, t.layers - 1) && t.top in t.heap && t.heap[t.top].count == 1
      && On(id, t.layers - 1) == Pos(t.layers - 1, 0)
    ensures t.at == map[Pos(t.layers - 1, 0) := t.top]
    ensures var u := t.(at := map[], top := NULL, layers := 0); Inv(u) && SameBut(t, u, t.top)
  {
    var l := t.layers - 1;
    OverBlank(t, id, l);
    var u := t.(heap := t.heap[t.top := t.heap[t.top].(count := 0)]);
    var n := u.heap[t.top];
    BlankSets(n);
    DetachedAlone(t, u, id);
    LoneTop(u);
    var v := t.(at := map[], top := NULL, layers := 0);
    assert Inv(v);
    forall h | HintOk(t, h) && h != t.top ensures HintOk(v, h) {
    }
    forall j ensures !Taken(t, j) && Held(t, j) == NULL {
      if j >= 0 && On(j, 0) in t.at {
        assert t.at[On(j, 0)] == t.top;
      }
    }
  }

  lemma DetachedAlone(t: Trie, u: Trie, id: int)
    requires t.layers > 0 && Over(t, id, t.layers - 1) && t.top in t.heap && t.heap[t.top].count == 1
      && On(id, t.layers - 1) == Pos(t.layers - 1, 0)
    requires u == t.(heap := t.heap[t.top := t.heap[t.top].(count := 0)])
    ensures Inv(u)
  {
    forall r | r in u.at && r != On(id, t.layers - 1) ensures u.heap[u.at[r]] == t.heap[t.at[r]] {
    }
    assert Placed(u) && Counted(u);
    forall r, j | r in u.at && r.level > 0 && 0 <= j < 256
      ensures u.heap[u.at[r]].ary[j] == if Kid(r, j) in u.at then u.at[Kid(r, j)] else NULL
      ensures u.heap[u.at[r]].bitmap[j] <==> Kid(r, j) in u.at && Full(u.heap[u.at[Kid(r, j)]])
    {
      assert t.heap[t.at[r]].ary[j] == if Kid(r, j) in t.at then t.at[Kid(r, j)] else NULL;
    }
  }

  lemma OverFrame(t: Trie, u: Trie, id: int, l: nat)
    requires Over(t, id, l) && u == t.(heap := u.heap)
    requires forall q :: q in t.at ==> t.at[q] in u.heap && u.heap[t.at[q]] == t.heap[t.at[q]]
    ensures Over(u, id, l) && SameBut(t, u, NULL)
  {
    assert Placed(u);
    forall r, j | r in u.at && r.level > 0 && 0 <= j < 256
      ensures u.heap[u.at[r]].ary[j] == if Kid(r, j) in u.at then u.at[Kid(r, j)] else NULL
      ensures u.heap[u.at[r]].bitmap[j] <==> Kid(r, j) in u.at && Full(u.heap[u.at[Kid(r, j)]])
    {
      assert t.heap[t.at[r]].ary[j] == if Kid(r, j) in t.at then t.at[Kid(r, j)] else NULL;
    }
    assert Linked(u) && Marked(u);
    forall h | HintOk(t, h) ensures HintOk(u, h) {
      if h != NULL {
        var r :| r in t.at && t.at[r] == h && r.level == 0 && t.heap[h].count > 0;
        assert r in u.at && u.at[r] == h;
      }
    }
  }

  lemma ClearStart(t: Trie, id: int)
    requires Placed(t)
    ensures PathCleared(t, t, id, t.layers - 1)
  {
  }

  lemma ClearedLeaf(t: Trie, u: Trie, id: int)
    requires Placed(t) && PathCleared(t, u, id, 0) && id >= 0 && On(id, 0) in t.at
    ensures t.at[On(id, 0)] in u.heap && Formed(u.heap[t.at[On(id, 0)]])
    ensures Taken(t, id) == u.heap[t.at[On(id, 0)]].bitmap[Slot(id, 0)]
  {
  }

  lemma MissingPath(t: Trie, id: int, l: nat)
    requires Loose(t, id) && l < t.layers && On(id, l) !in t.at
    ensures !Taken(t, id)
  {
    if Taken(t, id) {
      PathUp(t, id, 0, l);
    }
  }

  /** Hints depend only on positions and counts. */
  lemma HintKept(t: Trie, u: Trie, id: int, hint: Ptr)
    requires Placed(t) && PathCleared(t, u, id, 0) && On(id, 0) in t.at && HintOk(t, hint)
    requires u.at[On(id, 0)] in u.heap && Formed(u.heap[u.at[On(id, 0)]]) && Placed(Emptied(u, id))
    ensures HintOk(Emptied(u, id), hint)
  {
    if hint != NULL {
      var r :| r in t.at && t.at[r] == hint && r.level == 0 && t.heap[hint].count > 0;
      EmptiedHeap(t, u, id, r);
      assert r in Emptied(u, id).at;
    }
  }

  ghost function Shrunk(t: Trie): Trie
    requires t.top in t.heap && |t.heap[t.top].ary| > 0
  {
    t.(heap := t.heap - {t.top}, at := t.at - {Pos(t.layers - 1, 0)}, top := t.heap[t.top].ary[0],
          layers := t.layers - 1)
  }

  /** When the top's only child is leftmost, no layer sits beside it. */
  lemma OnlyChild(t: Trie, q: Pos)
    requires Inv(t) && t.layers > 1 && t.top in t.heap && t.heap[t.top].count == 1 && Formed(t.heap[t.top])
      && t.heap[t.top].ary[0] != NULL
    requires q in t.at && q.level == t.layers - 2
    ensures q == Pos(t.layers - 2, 0) && t.at[q] == t.heap[t.top].ary[0]
  {
    var root := Pos(t.layers - 1, 0);
    assert Parent(q) in t.at;
    assert Parent(q) == root && t.at[root] == t.top;
    var i := q.key % 256;
    assert Kid(root, i) == q;
    assert t.heap[t.top].ary[i] == t.at[q];
    Live(t, q);
    assert t.heap[t.top].count == |Busy(t.heap[t.top])|;
    hide Inv, Placed, Linked, Marked, Rooted, Counted;
    Single(t.heap[t.top], i);
  }

  lemma Single(n: Layer, i: int)
    requires Formed(n) && |Busy(n)| == 1 && n.ary[0] != NULL && 0 <= i < 256 && n.ary[i] != NULL
    ensures i == 0
  {
    assert 0 in Busy(n) && i in Busy(n);
    assert |Busy(n) - {0}| == 0;
    assert Busy(n) - {0} == {};
  }

  lemma Shrink(t: Trie)
    requires Inv(t) && t.layers > 1 && t.top in t.heap && t.heap[t.top].count == 1 && Formed(t.heap[t.top])
      && t.heap[t.top].ary[0] != NULL
    ensures Inv(Shrunk(t)) && Same(t, Shrunk(t)) && t.at[Pos(t.layers - 1, 0)] == t.top && Pos(t.layers - 1, 0) in t.at
  {
    var root, low := Pos(t.layers - 1, 0), Pos(t.layers - 2, 0);
    var u := Shrunk(t);
    assert Kid(root, 0) == low;
    assert low in t.at && t.at[low] == u.top;
    forall q | q in u.at ensures t.at[q] != t.top && u.heap[u.at[q]] == t.heap[t.at[q]] && q.level < u.layers {
      assert t.at[q] != t.at[root];
    }
    forall q | q in u.at && q.level == u.layers - 1 ensures q.key == 0 { OnlyChild(t, q); }
    assert Placed(u) && Rooted(u) && Counted(u);
    ShrinkLinked(t);
    forall h | HintOk(t, h) ensures HintOk(u, h) {
      if h != NULL {
        var r :| r in t.at && t.at[r] == h && r.level == 0 && t.heap[h].count > 0;
        assert r in u.at && u.at[r] == h;
      }
    }
    forall j ensures (Taken(t, j) <==> Taken(u, j)) && Held(t, j) == Held(u, j) {
      if j >= 0 && On(j, 0) in t.at { assert On(j, 0) in u.at; }
    }
  }

  lemma ShrinkLinked(t: Trie)
    requires Inv(t) && t.layers > 1 && t.top in t.heap && Formed(t.heap[t.top]) && Placed(Shrunk(t))
    ensures Linked(Shrunk(t)) && Marked(Shrunk(t))
  {
    hide Counted;
    var root := Pos(t.layers - 1, 0);
    var u := Shrunk(t);
    forall r, j | r in u.at && r.level > 0 && 0 <= j < 256
      ensures u.heap[u.at[r]].ary[j] == if Kid(r, j) in u.at then u.at[Kid(r, j)] else NULL
      ensures u.heap[u.at[r]].bitmap[j] <==> Kid(r, j) in u.at && Full(u.heap[u.at[Kid(r, j)]])
    {
      assert t.heap[t.at[r]].ary[j] == if Kid(r, j) in t.at then t.at[Kid(r, j)] else NULL;
      assert Kid(r, j) != root;
    }
    forall r | r in u.at && r.level < u.layers - 1 ensures Parent(r) in u.at {
      assert Parent(r) in t.at;
    }
  }

  lemma UnbindsSame(t: Trie, u: Trie, v: Trie, id: int)
    requires Placed(t) && Placed(u) && Placed(v) && Unbinds(t, u, id) && Same(u, v)
    ensures Unbinds(t, v, id)
  {
  }

  lemma UnbindsBindings(t: Trie, u: Trie, id: int)
    requires Placed(t) && Placed(u) && Unbinds(t, u, id)
    ensures Bindings(u) == Bindings(t) - {id}
  {
  }

  lemma NotBound(t: Trie, id: int)
    requires Placed(t) && !Taken(t, id)
    ensures Bindings(t) - {id} == Bindings(t)
  {
  }

  // ---------- lookup and replacement ----------

  /** What a lookup by id has to answer. */
  ghost function Lookup(m: map<int, Ptr>, id: int): Ptr {
    if id in m then m[id] else NULL
  }

  lemma HeldIsLookup(t: Trie, id: int)
    requires Inv(t) && !t.chunked
    ensures Held(t, id) == Lookup(Bindings(t), id)
  {
    if id >= 0 && On(id, 0) in t.at {
      TakenInRange(t, id);
      var n := t.heap[t.at[On(id, 0)]];
      assert Slot(id, 0) in Busy(n) ==> Slot(id, 0) in Marks(n);
    }
  }

  /** A hint answers for exactly the ids that share its prefix. */
  lemma HintAnswers(t: Trie, hint: Ptr, id: int)
    requires Inv(t) && HintOk(t, hint) && hint != NULL
    ensures hint in t.heap && Formed(t.heap[hint])
    ensures id - id % 256 == t.heap[hint].prefix ==> t.heap[hint].ary[id % 256] == Held(t, id)
  {
    var q :| q in t.at && t.at[q] == hint && q.level == 0 && t.heap[hint].count > 0;
    assert t.heap[hint].prefix == q.key * 256;
    if id - id % 256 == t.heap[hint].prefix {
      assert Shr(id, 0) == id && Shr(id, 1) == Shr(id, 0) / 256;
      assert id / 256 == q.key;
      assert On(id, 0) == q;
    }
  }

  /** The layer at a position, or null. */
  ghost function NodeAt(t: Trie, q: Pos): Ptr {
    if q in t.at then t.at[q] else NULL
  }

  /** One step down the path to `id`. */
  lemma Descend(t: Trie, id: int, l: nat)
    requires Inv(t) && id >= 0 && l < t.layers && On(id, l) in t.at
    ensures t.at[On(id, l)] != NULL && t.at[On(id, l)] in t.heap && Formed(t.heap[t.at[On(id, l)]])
      && t.heap[t.at[On(id, l)]].layer == l
    ensures t.heap[t.at[On(id, l)]].ary[Slot(id, l)] == if l == 0 then Held(t, id) else NodeAt(t, On(id, l - 1))
  {
    Live(t, On(id, l));
    if l > 0 {
      KidOnPath(id, l);
      SlotOf(t, On(id, l), Slot(id, l));
    }
  }

  lemma NothingHeld(t: Trie, id: int, l: nat)
    requires Inv(t) && id >= 0 && l < t.layers && On(id, l) !in t.at
    ensures Held(t, id) == NULL && !Taken(t, id)
  {
    if On(id, 0) in t.at {
      PathUp(t, id, 0, l);
    }
  }

  lemma HeldInRange(t: Trie, id: int)
    requires Inv(t) && (id < 0 || t.layers == 0 || id > IdrMax(t.layers))
    ensures Held(t, id) == NULL && !Taken(t, id)
  {
    if id >= 0 && On(id, 0) in t.at {
      TakenInRange(t, id);
    }
  }

  ghost function Replaced(t: Trie, id: int, ptr: Ptr): Trie
    requires On(id, 0) in t.at && t.at[On(id, 0)] in t.heap && Formed(t.heap[t.at[On(id, 0)]])
  {
    var n := t.heap[t.at[On(id, 0)]];
    t.(heap := t.heap[t.at[On(id, 0)] :=
         n.(ary := n.ary[Slot(id, 0) := ptr])])
  }

  lemma Replace(t: Trie, id: int, ptr: Ptr)
    requires Inv(t) && !t.chunked && id >= 0 && On(id, 0) in t.at && Taken(t, id)
    ensures t.at[On(id, 0)] in t.heap && Formed(t.heap[t.at[On(id, 0)]])
    ensures var u := Replaced(t, id, ptr); Inv(u) && Binds(t, u, id, ptr) && forall h :: HintOk(t, h) ==> HintOk(u, h)
  {
    hide Rooted, Linked, Marked;
    var q := On(id, 0);
    Live(t, q);
    var n := t.heap[t.at[q]];
    var u := Replaced(t, id, ptr);
    var m := u.heap[t.at[q]];
    assert Marks(m) == Marks(n) && Busy(m) <= Busy(n) + {Slot(id, 0)} && Slot(id, 0) in Marks(n);
    forall r | r in u.at && r != q ensures u.heap[u.at[r]] == t.heap[t.at[r]] {
      assert t.at[r] != t.at[q];
    }
    assert Placed(u) && Counted(u);
    ReplaceLinked(t, id, ptr);
    forall h | HintOk(t, h) ensures HintOk(u, h) {
      if h != NULL {
        var r :| r in t.at && t.at[r] == h && r.level == 0 && t.heap[h].count > 0;
        assert r in u.at && u.at[r] == h;
      }
    }
    forall j ensures Taken(u, j) <==> j == id || Taken(t, j)
             ensures Held(u, j) == if j == id then ptr else Held(t, j) {
      if j >= 0 && On(j, 0) == q {
        assert j == id <==> Slot(j, 0) == Slot(id, 0);
      }
    }
  }

  lemma ReplaceLinked(t: Trie, id: int, ptr: Ptr)
    requires Inv(t) && On(id, 0) in t.at
    requires t.at[On(id, 0)] in t.heap && Formed(t.heap[t.at[On(id, 0)]]) && Placed(Replaced(t, id, ptr))
    ensures Rooted(Replaced(t, id, ptr)) && Linked(Replaced(t, id, ptr)) && Marked(Replaced(t, id, ptr))
  {
    hide Counted;
    var u := Replaced(t, id, ptr);
    forall r, j | r in u.at && r.level > 0 && 0 <= j < 256
      ensures u.heap[u.at[r]].ary[j] == if Kid(r, j) in u.at then u.at[Kid(r, j)] else NULL
      ensures u.heap[u.at[r]].bitmap[j] <==> Kid(r, j) in u.at && Full(u.heap[u.at[Kid(r, j)]])
    {
      assert t.at[r] != t.at[On(id, 0)];
      SlotOf(t, r, j);
    }
  }

  // ---------- leaves that hold chunks ----------

  ghost function Installed(t: Trie, id: int, c: Ptr): Trie
    requires On(id, 0) in t.at && t.at[On(id, 0)] in t.heap && Formed(t.heap[t.at[On(id, 0)]])
  {
    var n := t.heap[t.at[On(id, 0)]];
    t.(heap := t.heap[t.at[On(id, 0)] :=
         n.(ary := n.ary[Slot(id, 0) := c], count := n.count + 1)])
  }

  /** Both trees have the same full slots; `u` holds `c` at `id` and otherwise what `t` holds. */
  ghost predicate Holds(t: Trie, u: Trie, id: int, c: Ptr)
    requires Placed(t) && Placed(u)
  {
    forall j {:trigger Taken(u, j)} {:trigger Held(u, j)} ::
      (Taken(u, j) <==> Taken(t, j)) && Held(u, j) == if j == id then c else Held(t, j)
  }

  lemma Install(t: Trie, id: int, c: Ptr)
    requires Inv(t) && t.chunked && id >= 0 && On(id, 0) in t.at && Held(t, id) == NULL && c != NULL
    ensures t.at[On(id, 0)] in t.heap && Formed(t.heap[t.at[On(id, 0)]])
    ensures Inv(Installed(t, id, c)) && Holds(t, Installed(t, id, c), id, c)
  {
    hide Rooted, Linked, Marked;
    var q := On(id, 0);
    Live(t, q);
    var n := t.heap[t.at[q]];
    var u := Installed(t, id, c);
    var m := u.heap[t.at[q]];
    assert Marks(m) == Marks(n) && Busy(m) == Busy(n) + {Slot(id, 0)} && Slot(id, 0) !in Busy(n);
    forall r | r in u.at && r != q ensures u.heap[u.at[r]] == t.heap[t.at[r]] {
      assert t.at[r] != t.at[q];
    }
    assert Placed(u) && Counted(u);
    InstallLinked(t, id, c);
    forall j ensures (Taken(u, j) <==> Taken(t, j)) && Held(u, j) == if j == id then c else Held(t, j) {
      if j >= 0 && On(j, 0) == q {
        assert j == id <==> Slot(j, 0) == Slot(id, 0);
      }
    }
  }

  lemma InstallLinked(t: Trie, id: int, c: Ptr)
    requires Inv(t) && On(id, 0) in t.at
    requires t.at[On(id, 0)] in t.heap && Formed(t.heap[t.at[On(id, 0)]]) && Placed(Installed(t, id, c))
    ensures Rooted(Installed(t, id, c)) && Linked(Installed(t, id, c)) && Marked(Installed(t, id, c))
  {
    hide Counted;
    var u := Installed(t, id, c);
    forall r, j | r in u.at && r.level > 0 && 0 <= j < 256
      ensures u.heap[u.at[r]].ary[j] == if Kid(r, j) in u.at then u.at[Kid(r, j)] else NULL
      ensures u.heap[u.at[r]].bitmap[j] <==> Kid(r, j) in u.at && Full(u.heap[u.at[Kid(r, j)]])
    {
      assert t.at[r] != t.at[On(id, 0)];
      SlotOf(t, r, j);
    }
  }

  /** `u` has the slot of `id` full and otherwise the full slots of `t`; both hold the same. */
  ghost predicate Fills(t: Trie, u: Trie, id: int)
    requires Placed(t) && Placed(u)
  {
    forall j {:trigger Taken(u, j)} {:trigger Held(u, j)} ::
      (Taken(u, j) <==> j == id || Taken(t, j)) && Held(u, j) == Held(t, j)
  }

  lemma FillsSame(t: Trie, u: Trie, v: Trie, id: int)
    requires Placed(t) && Placed(u) && Placed(v) && Fills(t, u, id) && Same(u, v)
    ensures Fills(t, v, id)
  {
  }

  /** Setting the bit of a slot that holds a chunk changes one layer, and none of the counts. */
  lemma FullBitCounts(t: Trie, id: int)
    requires Placed(t) && Counted(t) && t.chunked && id >= 0 && On(id, 0) in t.at && Held(t, id) != NULL
    ensures t.at[On(id, 0)] in t.heap && Formed(t.heap[t.at[On(id, 0)]])
    ensures var u := WithBit(t, On(id, 0), Slot(id, 0));
            Placed(u) && Counted(u) && forall r :: r in t.at && r != On(id, 0) ==> u.heap[u.at[r]] == t.heap[t.at[r]]
  {
    hide Full;
    var q := On(id, 0);
    Live(t, q);
    var n := t.heap[t.at[q]];
    var u := WithBit(t, q, Slot(id, 0));
    var m := u.heap[t.at[q]];
    assert Marks(m) == Marks(n) + {Slot(id, 0)} && Busy(m) == Busy(n) && Slot(id, 0) in Busy(n);
    forall r | r in u.at && r != q ensures u.heap[u.at[r]] == t.heap[t.at[r]] {
      assert t.at[r] != t.at[q];
    }
  }

  /** Setting the bit of a slot that holds a chunk. */
  lemma FullBit(t: Trie, id: int)
    requires Inv(t) && t.chunked && id >= 0 && On(id, 0) in t.at && Held(t, id) != NULL
    ensures t.at[On(id, 0)] in t.heap && Formed(t.heap[t.at[On(id, 0)]])
    ensures var u := WithBit(t, On(id, 0), Slot(id, 0));
            Placed(u) && Counted(u) && Rooted(u) && Linked(u) && Fills(t, u, id)
            && (!Taken(t, id) ==> Pending(u, id, 0))
  {
    hide Marked, Full, Counted;
    var q := On(id, 0);
    Live(t, q);
    var u := WithBit(t, q, Slot(id, 0));
    FullBitCounts(t, id);
    if !Taken(t, id) { LeafPending(t, u, id); }
    forall r, j | r in u.at && r.level > 0 && 0 <= j < 256
      ensures u.heap[u.at[r]].ary[j] == if Kid(r, j) in u.at then u.at[Kid(r, j)] else NULL
    {
      SlotOf(t, r, j);
    }
    forall j ensures (Taken(u, j) <==> j == id || Taken(t, j)) && Held(u, j) == Held(t, j) {
      if j >= 0 && On(j, 0) == q {
        assert j == id <==> Slot(j, 0) == Slot(id, 0);
      }
    }
  }

  /** `u` has the slot of `id` not full and otherwise the full slots of `t`; both hold the same. */
  ghost predicate Opens(t: Trie, u: Trie, id: int)
    requires Placed(t) && Placed(u)
  {
    forall j {:trigger Taken(u, j)} {:trigger Held(u, j)} ::
      (Taken(u, j) <==> j != id && Taken(t, j)) && Held(u, j) == Held(t, j)
  }

  /** Clearing every bit on the path, the leaf's included, keeps the tree consistent. */
  lemma OpenPath(t: Trie, u: Trie, id: int)
    requires Inv(t) && t.chunked && id >= 0 && On(id, 0) in t.at && PathCleared(t, u, id, -1)
    ensures Inv(u) && Opens(t, u, id)
  {
    hide Linked, Marked, Full;
    forall q | q in u.at
      ensures u.at[q] in u.heap && Formed(u.heap[u.at[q]]) && u.heap[u.at[q]].layer == q.level
        && CountOk(u.heap[u.at[q]], q, u.chunked)
    {
      if q == On(id, q.level) {
        ClearSets(t.heap[t.at[q]], Slot(id, q.level));
      }
    }
    assert Placed(u) && Rooted(u) && Counted(u);
    OpenLinked(t, u, id);
    forall j ensures (Taken(u, j) <==> j != id && Taken(t, j)) && Held(u, j) == Held(t, j) {
      if j >= 0 && On(j, 0) in t.at {
        assert On(j, 0) == On(id, 0) ==> (j == id <==> Slot(j, 0) == Slot(id, 0));
      }
    }
  }

  lemma OpenSlot(t: Trie, u: Trie, id: int, q: Pos, i: int)
    requires Inv(t) && id >= 0 && On(id, 0) in t.at && PathCleared(t, u, id, -1) && Placed(u)
    requires q in t.at && q.level > 0 && 0 <= i < 256
    ensures u.heap[u.at[q]].ary[i] == if Kid(q, i) in u.at then u.at[Kid(q, i)] else NULL
    ensures u.heap[u.at[q]].bitmap[i] <==> Kid(q, i) in u.at && Full(u.heap[u.at[Kid(q, i)]])
  {
    SlotOf(t, q, i);
    hide Inv, Linked, Marked, Counted, Rooted;
    var c := Kid(q, i);
    KidParent(q, i);
    KidOnPath(id, q.level);
    assert c == On(id, c.level) <==> OnPath(id, q, i);
    if OnPath(id, q, i) && c in t.at {
      assert !u.heap[u.at[c]].bitmap[Slot(id, c.level)];
    }
  }

  lemma OpenLinked(t: Trie, u: Trie, id: int)
    requires Inv(t) && id >= 0 && On(id, 0) in t.at && PathCleared(t, u, id, -1) && Placed(u)
    ensures Linked(u) && Marked(u)
  {
    forall q, i | q in u.at && q.level > 0 && 0 <= i < 256
      ensures u.heap[u.at[q]].ary[i] == if Kid(q, i) in u.at then u.at[Kid(q, i)] else NULL
      ensures u.heap[u.at[q]].bitmap[i] <==> Kid(q, i) in u.at && Full(u.heap[u.at[Kid(q, i)]])
    {
      OpenSlot(t, u, id, q, i);
    }
  }

  /** With its own bit set again, the slot can be removed although its parents' bits are clear. */
  lemma OpenedLoose(t: Trie, id: int)
    requires Inv(t) && t.chunked && id >= 0 && On(id, 0) in t.at && Held(t, id) != NULL && !Taken(t, id)
    ensures t.at[On(id, 0)] in t.heap && Formed(t.heap[t.at[On(id, 0)]])
    ensures var u := WithBit(t, On(id, 0), Slot(id, 0)); Loose(u, id) && Taken(u, id) && Fills(t, u, id)
  {
    FullBit(t, id);
    var u := WithBit(t, On(id, 0), Slot(id, 0));
    OpenedMarks(t, u, id);
    assert Taken(u, id);
  }

  lemma OpenedMarks(t: Trie, u: Trie, id: int)
    requires Inv(t) && id >= 0 && On(id, 0) in t.at && t.at[On(id, 0)] in t.heap && Formed(t.heap[t.at[On(id, 0)]])
    requires u == WithBit(t, On(id, 0), Slot(id, 0)) && Placed(u)
    ensures MarkedOff(u, id)
  {
    forall q, i | q in u.at && q.level > 0 && 0 <= i < 256 && !OnPath(id, q, i)
      ensures u.heap[u.at[q]].bitmap[i] <==> Kid(q, i) in u.at && Full(u.heap[u.at[Kid(q, i)]])
    {
      SlotOf(t, q, i);
      KidParent(q, i);
      KidOnPath(id, 1);
      assert t.at[q] != t.at[On(id, 0)];
      assert Kid(q, i) == On(id, 0) ==> OnPath(id, q, i);
    }
  }
}
