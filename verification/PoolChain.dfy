/** The chunk chain of a handle pool as a sequence of blocks: what joining, sliding and splitting do to it. */
module PoolChain {
  type Addr = int

  const NULL: Addr := -1

  /** The size of a chunk header. */
  const HEAD := 32

  const MEM_FREE_SIG := 0x45455246
  const MEM_ALOC_SIG := 0x434F4C41
  const MEM_LOCK_SIG := 0x4B434F4C

  /** One chunk: where its header is, its handle, its state, its size, and the bytes it holds while in use. */
  datatype Block = Block(at: Addr, handle: int, sig: int, size: int, data: seq<bv8>)

  type Chain = seq<Block>

  predicate Live(k: Block) {
    k.sig != MEM_FREE_SIG
  }

  function End(k: Block): Addr {
    k.at + HEAD + k.size
  }

  predicate Sound(k: Block, total: int) {
    && k.sig in {MEM_FREE_SIG, MEM_ALOC_SIG, MEM_LOCK_SIG}
    && 0 <= k.at && 0 <= k.size && End(k) <= total
    && |k.data| == if Live(k) then k.size else 0
  }

  /** `x` comes before `y`, as its neighbour when `next`, under another handle. */
  predicate Before(x: Block, y: Block, next: bool) {
    End(x) <= y.at && (next ==> End(x) == y.at) && x.handle != y.handle
  }

  /**
   * The blocks cover the arena from 0 to `total`, in address order, without gap or overlap, each under its own handle;
   * handle 0 comes first and is free.
   */
  ghost predicate Tiled(b: Chain, total: int) {
    && |b| > 0 && b[0].at == 0 && b[0].handle == 0 && !Live(b[0]) && End(b[|b| - 1]) == total
    && (forall i :: 0 <= i < |b| ==> Sound(b[i], total))
    && (forall i, j :: 0 <= i < j < |b| ==> Before(b[i], b[j], j == i + 1))
  }

  lemma PairOf(b: Chain, total: int, i: int, j: int)
    requires Tiled(b, total) && 0 <= i < j < |b|
    ensures Before(b[i], b[j], j == i + 1)
  {
  }

  lemma BlockOf(b: Chain, total: int, i: int)
    requires Tiled(b, total) && 0 <= i < |b|
    ensures Sound(b[i], total) && (i == 0 ==> b[i].at == 0 && b[i].handle == 0 && !Live(b[i]))
      && (i == |b| - 1 ==> End(b[i]) == total)
  {
  }

  predicate FreePair(b: Chain, i: int) {
    0 <= i < |b| - 1 && !Live(b[i]) && !Live(b[i + 1])
  }

  /** No two neighbours are free. */
  ghost predicate Apart(b: Chain) {
    forall i :: !FreePair(b, i)
  }

  /** No two neighbours are free, except perhaps with the block `k`. */
  ghost predicate ApartBut(b: Chain, k: int) {
    forall i :: FreePair(b, i) ==> i == k || i == k - 1
  }

  // ---- the live chunks ----

  /** A chunk in use as its owner sees it; a locked one also by its address. */
  datatype Chunk = Chunk(handle: int, locked: bool, data: seq<bv8>, at: Addr)

  function ChunkOf(k: Block): Chunk {
    Chunk(k.handle, k.sig == MEM_LOCK_SIG, k.data, if k.sig == MEM_LOCK_SIG then k.at else NULL)
  }

  ghost function Chunks(b: Chain): set<Chunk> {
    set i | 0 <= i < |b| && Live(b[i]) :: ChunkOf(b[i])
  }

  ghost predicate NoneLocked(b: Chain) {
    forall i :: 0 <= i < |b| ==> b[i].sig != MEM_LOCK_SIG
  }

  // ---- accounting ----

  /** Summed sizes and numbers of the free and of the live blocks. */
  datatype Tally = Tally(free: int, live: int, frees: int, lives: int)

  function Plus(x: Tally, y: Tally): Tally {
    Tally(x.free + y.free, x.live + y.live, x.frees + y.frees, x.lives + y.lives)
  }

  function One(k: Block): Tally {
    if Live(k) then Tally(0, k.size, 0, 1) else Tally(k.size, 0, 1, 0)
  }

  function Sum(b: Chain): Tally {
    if b == [] then Tally(0, 0, 0, 0) else Plus(Sum(b[..|b| - 1]), One(b[|b| - 1]))
  }

  lemma PlusAssoc(x: Tally, y: Tally, z: Tally)
    ensures Plus(Plus(x, y), z) == Plus(x, Plus(y, z))
  {
  }

  lemma SumSnoc(b: Chain, k: Block)
    ensures Sum(b + [k]) == Plus(Sum(b), One(k))
  {
    assert (b + [k])[..|b|] == b;
  }

  lemma {:induction false} SumCat(b: Chain, c: Chain)
    ensures Sum(b + c) == Plus(Sum(b), Sum(c))
    decreases |c|
  {
    if c == [] {
      assert b + c == b;
    } else {
      var c', k := c[..|c| - 1], c[|c| - 1];
      assert c == c' + [k];
      assert b + c == (b + c') + [k];
      hide *;
      SumCat(b, c');
      SumSnoc(b + c', k);
      SumSnoc(c', k);
      PlusAssoc(Sum(b), Sum(c'), One(k));
    }
  }

  lemma SumOne(k: Block)
    ensures Sum([k]) == One(k)
  {
    assert [k][..0] == [];
  }

  lemma SumTwo(k: Block, l: Block)
    ensures Sum([k, l]) == Plus(One(k), One(l))
  {
    SumOne(k);
    assert [k, l][..1] == [k];
  }

  /** The tally of a chain in three parts. */
  lemma SumParts(b: Chain, m: Chain, c: Chain)
    ensures Sum(b + m + c) == Plus(Plus(Sum(b), Sum(m)), Sum(c))
  {
    SumCat(b + m, c);
    SumCat(b, m);
  }

  /** Sizes plus headers sum to the arena. */
  lemma {:induction false} SumFills(b: Chain, total: int)
    requires Tiled(b, total)
    ensures Sum(b).free + Sum(b).live + HEAD * |b| == total
    ensures Sum(b).frees + Sum(b).lives == |b|
  {
    SumFillsTo(b, total, |b|);
    assert b[..|b|] == b;
  }

  lemma {:induction false} SumFillsTo(b: Chain, total: int, n: nat)
    requires Tiled(b, total) && 1 <= n <= |b|
    ensures Sum(b[..n]).free + Sum(b[..n]).live + HEAD * n == End(b[n - 1])
    ensures Sum(b[..n]).frees + Sum(b[..n]).lives == n
  {
    assert b[..n][..n - 1] == b[..n - 1];
    if n == 1 {
      SumOne(b[0]);
      assert b[..1] == [b[0]];
    } else {
      SumFillsTo(b, total, n - 1);
      assert End(b[n - 2]) == b[n - 1].at;
    }
  }

  /** Free blocks never outnumber the live ones by more than one. */
  lemma {:induction false} FreesBound(b: Chain)
    requires Apart(b)
    ensures Sum(b).frees <= Sum(b).lives + if b != [] && !Live(b[|b| - 1]) then 1 else 0
  {
    if b != [] {
      var c := b[..|b| - 1];
      assert forall i :: FreePair(c, i) ==> FreePair(b, i);
      FreesBound(c);
      assert !FreePair(b, |b| - 2);
    }
  }

  lemma {:induction false} SumSigns(b: Chain, total: int)
    requires forall i :: 0 <= i < |b| ==> Sound(b[i], total)
    ensures var s := Sum(b); s.free >= 0 && s.live >= 0 && s.frees >= 0 && s.lives >= 0
    ensures forall i ::
        0 <= i < |b| ==> if Live(b[i]) then b[i].size <= Sum(b).live else b[i].size <= Sum(b).free && Sum(b).frees >= 1
  {
    if b != [] {
      SumSigns(b[..|b| - 1], total);
      forall i | 0 <= i < |b|
        ensures if Live(b[i]) then b[i].size <= Sum(b).live else b[i].size <= Sum(b).free && Sum(b).frees >= 1
      {
        if i < |b| - 1 { assert b[..|b| - 1][i] == b[i]; }
      }
    }
  }

  // ---- handles ----

  ghost function HandlesOf(b: Chain): set<int> {
    if b == [] then {} else HandlesOf(b[..|b| - 1]) + {b[|b| - 1].handle}
  }

  lemma {:induction false} HandlesSize(b: Chain)
    ensures |HandlesOf(b)| <= |b|
    ensures forall i :: 0 <= i < |b| ==> b[i].handle in HandlesOf(b)
  {
    if b != [] {
      HandlesSize(b[..|b| - 1]);
      forall i | 0 <= i < |b| ensures b[i].handle in HandlesOf(b) {
        if i < |b| - 1 { assert b[..|b| - 1][i] == b[i]; }
      }
    }
  }

  ghost function Below(n: nat): set<int> {
    if n == 0 then {} else Below(n - 1) + {n - 1}
  }

  lemma {:induction false} BelowSize(n: nat)
    ensures |Below(n)| == n && forall i :: i in Below(n) <==> 0 <= i < n
  {
    if n > 0 {
      BelowSize(n - 1);
    }
  }

  /** A larger set has an element that a smaller one has not. */
  lemma {:induction false} Extra<T>(a: set<T>, b: set<T>) returns (x: T)
    requires |a| > |b|
    ensures x in a && x !in b
    decreases |a|
  {
    x :| x in a;
    if x in b {
      assert |a - {x}| == |a| - 1 && |b - {x}| == |b| - 1;
      x := Extra(a - {x}, b - {x});
    }
  }

  /** With fewer than half of the handles in use, one other than 0 is unused. */
  lemma UnusedHandle(b: Chain, total: int, n: int) returns (h: int)
    requires Tiled(b, total) && Apart(b) && 2 * Sum(b).lives + 1 < n
    ensures 0 < h < n && forall i :: 0 <= i < |b| ==> b[i].handle != h
  {
    FreesBound(b);
    SumFills(b, total);
    HandlesSize(b);
    BelowSize(n);
    h := Extra(Below(n), HandlesOf(b));
    assert b[0].handle == 0;
  }

  // ---- joining two neighbours ----

  function Joined(k: Block, l: Block): Block {
    k.(size := k.size + l.size + HEAD)
  }

  function Join(b: Chain, i: int): (r: Chain)
    requires 0 <= i < |b| - 1
    ensures |r| == |b| - 1
    ensures forall j ::
        0 <= j < |r| ==> r[j] == if j < i then b[j] else if j == i then Joined(b[i], b[i + 1]) else b[j + 1]
  {
    b[..i] + [Joined(b[i], b[i + 1])] + b[i + 2..]
  }

  lemma JoinPair(b: Chain, i: int, total: int, j: int, k: int)
    requires Tiled(b, total) && FreePair(b, i) && 0 <= j < k < |b| - 1
    ensures Before(Join(b, i)[j], Join(b, i)[k], k == j + 1)
  {
    hide Tiled;
    PairOf(b, total, i, i + 1);
    BlockOf(b, total, i);
    PairOf(b, total, if j < i then j else j + 1, if k <= i then k else k + 1);
    PairOf(b, total, if j <= i then j else j + 1, if k <= i then k else k + 1);
  }

  lemma JoinTiled(b: Chain, i: int, total: int)
    requires Tiled(b, total) && FreePair(b, i)
    ensures Tiled(Join(b, i), total)
  {
    var r := Join(b, i);
    forall j | 0 <= j < |r| ensures Sound(r[j], total) {
      BlockOf(b, total, if j <= i then j else j + 1);
      BlockOf(b, total, i + 1);
      PairOf(b, total, i, i + 1);
    }
    PairOf(b, total, i, i + 1);
    forall j, k | 0 <= j < k < |r| ensures Before(r[j], r[k], k == j + 1) {
      JoinPair(b, i, total, j, k);
    }
  }

  lemma JoinSum(b: Chain, i: int)
    requires FreePair(b, i)
    ensures Sum(Join(b, i)) == Plus(Sum(b), Tally(HEAD, 0, -1, 0))
  {
    assert b == b[..i] + [b[i], b[i + 1]] + b[i + 2..];
    SumParts(b[..i], [b[i], b[i + 1]], b[i + 2..]);
    SumParts(b[..i], [Joined(b[i], b[i + 1])], b[i + 2..]);
    SumTwo(b[i], b[i + 1]);
    SumOne(Joined(b[i], b[i + 1]));
  }

  /** Two chains hold the same live chunks when their live blocks correspond. */
  lemma ChunksJoin(b: Chain, i: int)
    requires FreePair(b, i)
    ensures Chunks(Join(b, i)) == Chunks(b)
  {
    var r := Join(b, i);
    forall c | c in Chunks(b) ensures c in Chunks(r) {
      var j :| 0 <= j < |b| && Live(b[j]) && c == ChunkOf(b[j]);
      assert r[if j < i then j else j - 1] == b[j];
    }
    forall c | c in Chunks(r) ensures c in Chunks(b) {
      var j :| 0 <= j < |r| && Live(r[j]) && c == ChunkOf(r[j]);
      assert r[j] == b[if j < i then j else j + 1];
    }
  }

  // ---- a chunk changes places with the free one after it ----

  function SlidFree(k: Block, l: Block): Block {
    l.(at := k.at)
  }

  function SlidLive(k: Block, l: Block): Block {
    k.(at := k.at + HEAD + l.size)
  }

  function Slide(b: Chain, i: int): (r: Chain)
    requires 0 <= i < |b| - 1
    ensures |r| == |b|
    ensures forall j :: 0 <= j < |r| ==>
        r[j] == if j == i then SlidFree(b[i], b[i + 1]) else if j == i + 1 then SlidLive(b[i], b[i + 1]) else b[j]
  {
    b[..i] + [SlidFree(b[i], b[i + 1]), SlidLive(b[i], b[i + 1])] + b[i + 2..]
  }

  predicate Slidable(b: Chain, i: int) {
    0 <= i < |b| - 1 && b[i].sig == MEM_ALOC_SIG && !Live(b[i + 1])
  }

  lemma SlidePair(b: Chain, i: int, total: int, j: int, k: int)
    requires Tiled(b, total) && Slidable(b, i) && 0 <= j < k < |b|
    ensures Before(Slide(b, i)[j], Slide(b, i)[k], k == j + 1)
  {
    hide Tiled;
    PairOf(b, total, i, i + 1);
    BlockOf(b, total, i);
    BlockOf(b, total, i + 1);
    PairOf(b, total, j, k);
    if j < i { PairOf(b, total, j, i); PairOf(b, total, j, i + 1); }
    if k > i + 1 { PairOf(b, total, i + 1, k); PairOf(b, total, i, k); }
  }

  lemma SlideTiled(b: Chain, i: int, total: int)
    requires Tiled(b, total) && Slidable(b, i)
    ensures Tiled(Slide(b, i), total) && i > 0
  {
    var r := Slide(b, i);
    PairOf(b, total, i, i + 1);
    forall j | 0 <= j < |r| ensures Sound(r[j], total) {
      BlockOf(b, total, j);
      BlockOf(b, total, i);
      BlockOf(b, total, i + 1);
    }
    forall j, k | 0 <= j < k < |r| ensures Before(r[j], r[k], k == j + 1) {
      SlidePair(b, i, total, j, k);
    }
    BlockOf(b, total, 0);
  }

  lemma SlideSum(b: Chain, i: int)
    requires Slidable(b, i)
    ensures Sum(Slide(b, i)) == Sum(b)
  {
    var k, l := b[i], b[i + 1];
    assert b == b[..i] + [k, l] + b[i + 2..];
    SumParts(b[..i], [k, l], b[i + 2..]);
    SumParts(b[..i], [SlidFree(k, l), SlidLive(k, l)], b[i + 2..]);
    SumTwo(k, l);
    SumTwo(SlidFree(k, l), SlidLive(k, l));
  }

  lemma ChunksSlide(b: Chain, i: int)
    requires Slidable(b, i)
    ensures Chunks(Slide(b, i)) == Chunks(b)
  {
    var r := Slide(b, i);
    forall c | c in Chunks(b) ensures c in Chunks(r) {
      var j :| 0 <= j < |b| && Live(b[j]) && c == ChunkOf(b[j]);
      assert ChunkOf(r[if j == i then i + 1 else j]) == c;
    }
    forall c | c in Chunks(r) ensures c in Chunks(b) {
      var j :| 0 <= j < |r| && Live(r[j]) && c == ChunkOf(r[j]);
      assert ChunkOf(b[if j == i + 1 then i else j]) == c;
    }
  }

  // ---- a piece is taken off the end of a free block ----

  function Rest(k: Block, size: int): Block {
    k.(size := k.size - size - HEAD)
  }

  function Piece(k: Block, size: int, h: int, data: seq<bv8>): Block {
    Block(k.at + (k.size - size), h, MEM_ALOC_SIG, size, data)
  }

  function Split(b: Chain, i: int, size: int, h: int, data: seq<bv8>): (r: Chain)
    requires 0 <= i < |b|
    ensures |r| == |b| + 1
    ensures forall j ::
        0 <= j < |r| ==>
          r[j] == if j < i then b[j] else if j == i then Rest(b[i], size)
            else if j == i + 1 then Piece(b[i], size, h, data) else b[j - 1]
  {
    b[..i] + [Rest(b[i], size), Piece(b[i], size, h, data)] + b[i + 1..]
  }

  ghost predicate Splittable(b: Chain, i: int, size: int, h: int) {
    0 <= i < |b| && !Live(b[i]) && 0 <= size && b[i].size >= size + HEAD
    && forall j :: 0 <= j < |b| ==> b[j].handle != h
  }

  lemma SplitPair(b: Chain, i: int, size: int, h: int, data: seq<bv8>, total: int, j: int, k: int)
    requires Tiled(b, total) && Splittable(b, i, size, h) && 0 <= j < k <= |b|
    ensures Before(Split(b, i, size, h, data)[j], Split(b, i, size, h, data)[k], k == j + 1)
  {
    hide Tiled;
    BlockOf(b, total, i);
    var j0, k0 := if j <= i then j else j - 1, if k <= i then k else k - 1;
    if j0 < k0 {
      PairOf(b, total, j0, k0);
    }
  }

  lemma SplitTiled(b: Chain, i: int, size: int, h: int, data: seq<bv8>, total: int)
    requires Tiled(b, total) && Splittable(b, i, size, h) && |data| == size
    ensures Tiled(Split(b, i, size, h, data), total)
  {
    var r := Split(b, i, size, h, data);
    forall j | 0 <= j < |r| ensures Sound(r[j], total) {
      BlockOf(b, total, if j <= i then j else j - 1);
    }
    forall j, k | 0 <= j < k < |r| ensures Before(r[j], r[k], k == j + 1) {
      SplitPair(b, i, size, h, data, total, j, k);
    }
  }

  lemma SplitSum(b: Chain, i: int, size: int, h: int, data: seq<bv8>)
    requires Splittable(b, i, size, h)
    ensures Sum(Split(b, i, size, h, data)) == Plus(Sum(b), Tally(-(size + HEAD), size, 0, 1))
  {
    var k := b[i];
    assert b == b[..i] + [k] + b[i + 1..];
    SumParts(b[..i], [k], b[i + 1..]);
    SumParts(b[..i], [Rest(k, size), Piece(k, size, h, data)], b[i + 1..]);
    SumOne(k);
    SumTwo(Rest(k, size), Piece(k, size, h, data));
  }

  lemma ChunksSplit(b: Chain, i: int, size: int, h: int, data: seq<bv8>)
    requires Splittable(b, i, size, h)
    ensures Chunks(Split(b, i, size, h, data)) == Chunks(b) + {Chunk(h, false, data, NULL)}
  {
    var r := Split(b, i, size, h, data);
    forall c | c in Chunks(b) ensures c in Chunks(r) {
      var j :| 0 <= j < |b| && Live(b[j]) && c == ChunkOf(b[j]);
      assert r[if j < i then j else j + 1] == b[j];
    }
    assert ChunkOf(r[i + 1]) == Chunk(h, false, data, NULL);
    forall c | c in Chunks(r) ensures c in Chunks(b) + {Chunk(h, false, data, NULL)} {
      var j :| 0 <= j < |r| && Live(r[j]) && c == ChunkOf(r[j]);
      if j != i + 1 { assert r[j] == b[if j < i then j else j - 1]; }
    }
  }

  lemma SplitApart(b: Chain, i: int, size: int, h: int, data: seq<bv8>)
    requires Apart(b) && Splittable(b, i, size, h)
    ensures Apart(Split(b, i, size, h, data))
  {
    var r := Split(b, i, size, h, data);
    forall j ensures !FreePair(r, j) {
      assert !FreePair(b, j) && !FreePair(b, j - 1);
    }
  }

  // ---- one block changes its state ----

  function Becomes(b: Chain, i: int, sig: int, data: seq<bv8>): (r: Chain)
    requires 0 <= i < |b|
  {
    b[i := b[i].(sig := sig, data := data)]
  }

  lemma BecomesTiled(b: Chain, i: int, sig: int, data: seq<bv8>, total: int)
    requires Tiled(b, total) && 0 < i < |b| && sig in {MEM_FREE_SIG, MEM_ALOC_SIG, MEM_LOCK_SIG}
    requires |data| == if sig != MEM_FREE_SIG then b[i].size else 0
    ensures Tiled(Becomes(b, i, sig, data), total)
  {
    var r := Becomes(b, i, sig, data);
    assert forall j :: 0 <= j < |b| ==> r[j].at == b[j].at && r[j].handle == b[j].handle && r[j].size == b[j].size;
    forall j | 0 <= j < |r| ensures Sound(r[j], total) {
      BlockOf(b, total, j);
    }
    forall j, k | 0 <= j < k < |r| ensures Before(r[j], r[k], k == j + 1) {
      PairOf(b, total, j, k);
    }
  }

  lemma BecomesSum(b: Chain, i: int, sig: int, data: seq<bv8>)
    requires 0 <= i < |b|
    ensures Plus(Sum(Becomes(b, i, sig, data)), One(b[i])) == Plus(Sum(b), One(b[i].(sig := sig, data := data)))
  {
    hide Sum, One;
    var k := b[i].(sig := sig, data := data);
    BecomesCat(b, i, k);
    SumParts(b[..i], [b[i]], b[i + 1..]);
    SumParts(b[..i], [k], b[i + 1..]);
    SumOne(b[i]);
    SumOne(k);
  }

  lemma BecomesSame(b: Chain, i: int, sig: int, data: seq<bv8>)
    requires 0 <= i < |b| && (Live(b[i]) <==> sig != MEM_FREE_SIG)
    ensures Sum(Becomes(b, i, sig, data)) == Sum(b)
  {
    hide Sum;
    BecomesSum(b, i, sig, data);
    var x, y, z := Sum(Becomes(b, i, sig, data)), Sum(b), One(b[i]);
    assert One(b[i].(sig := sig, data := data)) == z;
    assert Plus(x, z) == Plus(y, z);
  }

  lemma BecomesLess(b: Chain, i: int)
    requires 0 <= i < |b| && Live(b[i])
    ensures Sum(Becomes(b, i, MEM_FREE_SIG, [])) == Plus(Sum(b), Tally(b[i].size, -b[i].size, 1, -1))
  {
    hide Sum;
    BecomesSum(b, i, MEM_FREE_SIG, []);
    var x, y, z := Sum(Becomes(b, i, MEM_FREE_SIG, [])), Sum(b), One(b[i]);
    var w := One(b[i].(sig := MEM_FREE_SIG, data := []));
    assert Plus(x, z) == Plus(y, w);
    assert z == Tally(0, b[i].size, 0, 1) && w == Tally(b[i].size, 0, 1, 0);
  }

  lemma BecomesMore(b: Chain, i: int, data: seq<bv8>)
    requires 0 <= i < |b| && !Live(b[i])
    ensures Sum(Becomes(b, i, MEM_ALOC_SIG, data)) == Plus(Sum(b), Tally(-b[i].size, b[i].size, -1, 1))
  {
    hide Sum;
    BecomesSum(b, i, MEM_ALOC_SIG, data);
    var x, y, z := Sum(Becomes(b, i, MEM_ALOC_SIG, data)), Sum(b), One(b[i]);
    var w := One(b[i].(sig := MEM_ALOC_SIG, data := data));
    assert Plus(x, z) == Plus(y, w);
    assert w == Tally(0, b[i].size, 0, 1) && z == Tally(b[i].size, 0, 1, 0);
  }

  lemma BecomesCat(b: Chain, i: int, k: Block)
    requires 0 <= i < |b|
    ensures b == b[..i] + [b[i]] + b[i + 1..] && b[i := k] == b[..i] + [k] + b[i + 1..]
  {
  }

  /** The live chunks without, or with another, entry for the block `i`. */
  lemma ChunksBecome(b: Chain, i: int, sig: int, data: seq<bv8>, total: int)
    requires Tiled(b, total) && 0 <= i < |b|
    ensures var k := b[i].(sig := sig, data := data);
            Chunks(Becomes(b, i, sig, data)) == (Chunks(b) - (if Live(b[i]) then {ChunkOf(b[i])} else {}))
                + (if Live(k) then {ChunkOf(k)} else {})
  {
    var k := b[i].(sig := sig, data := data);
    var r := Becomes(b, i, sig, data);
    forall c | c in Chunks(b) && !(Live(b[i]) && c == ChunkOf(b[i])) ensures c in Chunks(r) {
      var j :| 0 <= j < |b| && Live(b[j]) && c == ChunkOf(b[j]);
      assert r[j] == b[j];
    }
    assert r[i] == k;
    forall c | c in Chunks(r) && !(Live(k) && c == ChunkOf(k))
      ensures c in Chunks(b) && !(Live(b[i]) && c == ChunkOf(b[i]))
    {
      var j :| 0 <= j < |r| && Live(r[j]) && c == ChunkOf(r[j]);
      assert r[j] == b[j] && j != i;
      PairOf(b, total, if i < j then i else j, if i < j then j else i);
    }
  }

  lemma ChunksMore(b: Chain, i: int, data: seq<bv8>, total: int)
    requires Tiled(b, total) && 0 <= i < |b| && !Live(b[i])
    ensures Chunks(Becomes(b, i, MEM_ALOC_SIG, data)) == Chunks(b) + {Chunk(b[i].handle, false, data, NULL)}
  {
    hide Tiled, Chunks, Becomes;
    ChunksBecome(b, i, MEM_ALOC_SIG, data, total);
  }

  lemma BecomesApart(b: Chain, i: int, sig: int, data: seq<bv8>)
    requires Apart(b) && 0 <= i < |b|
    ensures ApartBut(Becomes(b, i, sig, data), i)
    ensures sig != MEM_FREE_SIG ==> Apart(Becomes(b, i, sig, data))
  {
    var r := Becomes(b, i, sig, data);
    forall j | FreePair(r, j) ensures (j == i || j == i - 1) && sig == MEM_FREE_SIG {
      assert !FreePair(b, j);
    }
  }

  // ---- squeezing all free space into the first block ----

  /** The size of handle 0 once every free block has been joined to it. */
  function Squeezed(b: Chain): int {
    Sum(b).free + HEAD * (Sum(b).frees - 1)
  }

  /** Joins and slides do not change it, and it is what they come to. */
  lemma SqueezedKept(b: Chain, i: int)
    requires 0 <= i < |b| - 1
    ensures FreePair(b, i) ==> Squeezed(Join(b, i)) == Squeezed(b)
    ensures Slidable(b, i) ==> Squeezed(Slide(b, i)) == Squeezed(b)
  {
    if FreePair(b, i) {
      JoinSum(b, i);
    } else if Slidable(b, i) {
      SlideSum(b, i);
    }
  }

  /** Once only the first block is free, that is its size. */
  lemma {:induction false} SqueezedOut(b: Chain)
    requires b != [] && !Live(b[0]) && forall i :: 0 < i < |b| ==> Live(b[i])
    ensures Squeezed(b) == b[0].size && Sum(b).frees == 1
  {
    if |b| == 1 {
      SumOne(b[0]);
      assert b == [b[0]];
    } else {
      SqueezedOut(b[..|b| - 1]);
    }
  }

  /** Some fragment can take `size` bytes without any sliding. */
  ghost predicate Roomy(b: Chain, size: int) {
    b != [] && (b[0].size >= size + HEAD || exists i :: 0 < i < |b| && !Live(b[i]) && b[i].size >= size)
  }

  /** A fragment that is large enough is never larger than what squeezing gives. */
  lemma RoomySqueezed(b: Chain, total: int, size: int)
    requires Tiled(b, total) && Roomy(b, size)
    ensures Squeezed(b) >= size + HEAD && Sum(b).free >= size
  {
    BlockOf(b, total, 0);
    var c := b[1..];
    assert b == [b[0]] + c;
    SumCat([b[0]], c);
    SumOne(b[0]);
    forall i | 0 <= i < |c| ensures Sound(c[i], total) {
      BlockOf(b, total, i + 1);
    }
    SumSigns(c, total);
    if b[0].size < size + HEAD {
      var i :| 0 < i < |b| && !Live(b[i]) && b[i].size >= size;
      assert c[i - 1] == b[i];
    }
  }

  /** No chunk from position `k` on can slide. */
  ghost predicate Settled(b: Chain, k: int) {
    forall j {:trigger Slidable(b, j)} :: j >= k ==> !Slidable(b, j)
  }

  /** When nothing is locked and nothing can slide, only the first block is free. */
  lemma {:induction false} SettledLive(b: Chain, j: int)
    requires Apart(b) && NoneLocked(b) && Settled(b, 1) && b != [] && !Live(b[0]) && 0 < j < |b|
    requires forall i :: 0 <= i < |b| ==> b[i].sig in {MEM_FREE_SIG, MEM_ALOC_SIG, MEM_LOCK_SIG}
    ensures Live(b[j])
  {
    if j == 1 {
      assert !FreePair(b, 0);
    } else {
      SettledLive(b, j - 1);
      assert !Slidable(b, j - 1);
    }
  }

  /** Then the walk has squeezed everything into handle 0. */
  lemma SettledSqueezed(b: Chain, total: int)
    requires Tiled(b, total) && Apart(b) && NoneLocked(b) && Settled(b, 1)
    ensures Squeezed(b) == b[0].size
  {
    forall i | 0 < i < |b| ensures Live(b[i]) {
      SettledLive(b, i);
    }
    SqueezedOut(b);
  }

  /** A slide leaves nothing to slide at or above its place. */
  lemma SlideSettles(b: Chain, k: int)
    requires Apart(b) && Slidable(b, k) && Settled(b, k + 1)
    ensures Settled(Slide(b, k), k) && ApartBut(Slide(b, k), k)
  {
    var r := Slide(b, k);
    forall j | j >= k ensures !Slidable(r, j) {
      assert !Slidable(b, j) || j == k;
      assert !FreePair(b, k + 1);
    }
    forall j | FreePair(r, j) ensures j == k || j == k - 1 {
      assert !FreePair(b, j) && !FreePair(b, k + 1);
    }
  }

  lemma JoinSettles(b: Chain, k: int)
    requires FreePair(b, k) && Settled(b, k + 1)
    ensures Settled(Join(b, k), k + 1)
  {
    var r := Join(b, k);
    forall j | j >= k + 1 ensures !Slidable(r, j) {
      assert !Slidable(b, j + 1);
    }
  }

  lemma NoneLockedAlike(b: Chain, c: Chain)
    requires Chunks(b) == Chunks(c) && NoneLocked(b)
    ensures NoneLocked(c)
  {
    forall i | 0 <= i < |c| ensures c[i].sig != MEM_LOCK_SIG {
      if Live(c[i]) {
        assert ChunkOf(c[i]) in Chunks(b);
        var j :| 0 <= j < |b| && Live(b[j]) && ChunkOf(b[j]) == ChunkOf(c[i]);
      }
    }
  }

  // ---- squeezing between locked chunks ----

  /** The size of the one fragment that the free blocks since the last locked one can be joined to; -HEAD for none. */
  function Run(b: Chain): int {
    if b == [] then -HEAD else Ran(Run(b[..|b| - 1]), b[|b| - 1])
  }

  function Ran(run: int, k: Block): int {
    if k.sig == MEM_LOCK_SIG then -HEAD else if Live(k) then run else run + k.size + HEAD
  }

  /** Somewhere between two locked chunks the free space comes to a fragment of `n` bytes. */
  ghost predicate Reaches(b: Chain, n: int) {
    exists k :: 0 <= k <= |b| && Run(b[..k]) >= n
  }

  /** All fragments are smaller than `n` bytes. */
  ghost predicate Small(b: Chain, n: int) {
    forall i :: 0 <= i < |b| && !Live(b[i]) ==> b[i].size < n
  }

  lemma RunAt(b: Chain, k: int)
    requires 0 <= k < |b|
    ensures Run(b[..k + 1]) == Ran(Run(b[..k]), b[k])
  {
    assert b[..k + 1][..k] == b[..k];
  }

  /** From a place on where two chains agree, so do their fragments. */
  lemma {:induction false} RunAlike(b: Chain, c: Chain, i: int, j: int, d: nat)
    requires 0 <= i && 0 <= j && i + d <= |b| && j + d <= |c| && Run(b[..i]) == Run(c[..j])
      && forall x :: i <= x < i + d ==> b[x] == c[x + (j - i)]
    ensures Run(b[..i + d]) == Run(c[..j + d])
  {
    if d > 0 {
      RunAlike(b, c, i, j, d - 1);
      RunAt(b, i + d - 1);
      RunAt(c, j + d - 1);
    }
  }

  /** Where the free space of a prefix is found again after a slide at `i`. */
  lemma SlideRun(b: Chain, i: int, k: int)
    requires Slidable(b, i) && 0 <= k <= |b|
    ensures var r := Slide(b, i);
            if k <= i then Run(r[..k]) == Run(b[..k])
            else if k == i + 1 then Run(b[..k]) == Run(b[..i]) && Run(r[..k]) == Run(b[..k + 1])
            else Run(r[..k]) == Run(b[..k])
  {
    hide Run;
    var r := Slide(b, i);
    RunAlike(b, r, 0, 0, if k <= i then k else i);
    if k > i {
      RunAt(b, i);
      RunAt(b, i + 1);
      RunAt(r, i);
      RunAt(r, i + 1);
      if k > i + 2 { RunAlike(b, r, i + 2, i + 2, k - i - 2); }
    }
  }

  lemma SlideReaches(b: Chain, i: int, n: int)
    requires Slidable(b, i)
    ensures Reaches(Slide(b, i), n) <==> Reaches(b, n)
  {
    hide Run;
    var r := Slide(b, i);
    if Reaches(b, n) {
      var k :| 0 <= k <= |b| && Run(b[..k]) >= n;
      SlideRun(b, i, k);
      SlideRun(b, i, i);
      assert Run(r[..if k == i + 1 then i else k]) >= n;
    }
    if Reaches(r, n) {
      var k :| 0 <= k <= |r| && Run(r[..k]) >= n;
      SlideRun(b, i, k);
      assert Run(b[..if k == i + 1 then k + 1 else k]) >= n;
    }
  }

  lemma JoinedRun(b: Chain, i: int)
    requires FreePair(b, i)
    ensures var r := Join(b, i);
            Run(r[..i]) == Run(b[..i]) && Run(r[..i + 1]) == Run(b[..i + 2])
            && Run(b[..i + 1]) == Run(b[..i + 2]) - b[i + 1].size - HEAD
  {
    hide Run;
    var r := Join(b, i);
    RunAlike(b, r, 0, 0, i);
    RunAt(b, i);
    RunAt(b, i + 1);
    RunAt(r, i);
  }

  /** Where the free space of a prefix is found again after the blocks `i` and `i + 1` are joined. */
  lemma JoinRun(b: Chain, i: int, k: int)
    requires FreePair(b, i) && 0 <= k <= |b| && k != i + 1
    ensures var r := Join(b, i); Run(r[..if k <= i then k else k - 1]) == Run(b[..k])
  {
    hide Run, Ran;
    var r := Join(b, i);
    JoinedRun(b, i);
    if k <= i {
      RunAlike(b, r, 0, 0, k);
    } else {
      RunAlike(b, r, i + 2, i + 1, k - i - 2);
    }
  }

  lemma JoinReaches(b: Chain, i: int, n: int)
    requires FreePair(b, i) && b[i + 1].size >= 0
    ensures Reaches(Join(b, i), n) <==> Reaches(b, n)
  {
    hide Run;
    var r := Join(b, i);
    if Reaches(b, n) {
      var k :| 0 <= k <= |b| && Run(b[..k]) >= n;
      var l := if k == i + 1 then k + 1 else k;
      JoinedRun(b, i);
      JoinRun(b, i, l);
      assert Run(r[..if l <= i then l else l - 1]) >= n;
    }
    if Reaches(r, n) {
      var k :| 0 <= k <= |r| && Run(r[..k]) >= n;
      JoinRun(b, i, if k <= i then k else k + 1);
      assert Run(b[..if k <= i then k else k + 1]) >= n;
    }
  }

  lemma {:induction false} RunLeast(b: Chain, k: int, total: int)
    requires Tiled(b, total) && 0 <= k <= |b|
    ensures Run(b[..k]) >= -HEAD
  {
    if k > 0 {
      RunLeast(b, k - 1, total);
      RunAt(b, k - 1);
      BlockOf(b, total, k - 1);
    }
  }

  /** Any fragment that there is. */
  lemma FragmentReaches(b: Chain, total: int, i: int, n: int)
    requires Tiled(b, total) && 0 <= i < |b| && !Live(b[i]) && b[i].size >= n
    ensures Reaches(b, n)
  {
    RunLeast(b, i, total);
    RunAt(b, i);
    assert Run(b[..i + 1]) >= n;
  }

  /** When nothing can slide, free space begins right after a locked chunk. */
  lemma SettledRun(b: Chain, total: int, k: int)
    requires Tiled(b, total) && Apart(b) && Settled(b, 1) && 0 <= k < |b| && !Live(b[k])
    ensures Run(b[..k]) == -HEAD
  {
    if k > 0 {
      BlockOf(b, total, 0);
      BlockOf(b, total, k - 1);
      assert !FreePair(b, k - 1) && (k > 1 ==> !Slidable(b, k - 1));
      RunAt(b, k - 1);
    }
  }

  /** Then the fragments are what the free space comes to. */
  lemma {:induction false} SettledSmall(b: Chain, total: int, k: int, n: int)
    requires Tiled(b, total) && Apart(b) && Settled(b, 1) && Small(b, n) && n >= 0 && 0 <= k <= |b|
    ensures Run(b[..k]) < n
  {
    if k > 0 {
      SettledSmall(b, total, k - 1, n);
      RunAt(b, k - 1);
      if !Live(b[k - 1]) {
        SettledRun(b, total, k - 1);
      }
    }
  }

  /** When nothing can slide, some fragment has `n` bytes exactly when somewhere the free space comes to so much. */
  lemma SettledReaches(b: Chain, total: int, n: int)
    requires Tiled(b, total) && Apart(b) && Settled(b, 1) && n >= 0
    ensures Reaches(b, n) <==> !Small(b, n)
  {
    if Small(b, n) {
      forall k | 0 <= k <= |b| ensures Run(b[..k]) < n { SettledSmall(b, total, k, n); }
    } else {
      var i :| 0 <= i < |b| && !Live(b[i]) && b[i].size >= n;
      FragmentReaches(b, total, i, n);
    }
  }

  /** A request that squeezing would meet although it is larger than all that is free. */
  predicate Hasty(b: Chain, size: int) {
    Sum(b).free < size && Squeezed(b) >= size + HEAD
  }

  /**
   * The bytes that are free do not bound what squeezing gives, since it also gains headers: from three free chunks on
   * there are requests that could be met although fewer bytes are free.
   */
  lemma EarlyExitIsHasty(b: Chain)
    ensures (exists size :: Hasty(b, size)) <==> Sum(b).frees >= 3
  {
    if Sum(b).frees >= 3 {
      assert Hasty(b, Sum(b).free + 1);
    }
  }
}
