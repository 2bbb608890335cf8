/** The id allocator without pointers: a chunked id tree whose leaf slots hold bitmaps of 960 ids. */
module IdAllocator {
  import opened IdrTrie
  import opened IdMap

  const BITS := 960

  /** A leaf bitmap and the number of its set bits. */
  datatype Chunk = Chunk(nrBusy: int, bits: seq<bool>)

  type Chunks = map<Ptr, Chunk>

  ghost function SetBits(k: Chunk): set<int> {
    set i | 0 <= i < |k.bits| && k.bits[i]
  }

  predicate AllSet(k: Chunk) {
    forall i :: 0 <= i < |k.bits| ==> k.bits[i]
  }

  ghost predicate ChunkOk(k: Chunk) {
    |k.bits| == BITS && k.nrBusy == |SetBits(k)| && k.nrBusy >= 1
  }

  /** What a slot that holds a chunk says about it. */
  ghost predicate SlotOk(t: Trie, chunks: Chunks, spare: Ptr, c: int)
    requires Placed(t)
  {
    var p: Ptr := Held(t, c);
    && p in chunks && ChunkOk(chunks[p]) && p != spare && c >= 0
    && (Taken(t, c) <==> AllSet(chunks[p]))
    && forall o :: 0 <= o < BITS && chunks[p].bits[o] ==> c * BITS + o < MAX_IDR_BIT
  }

  /** Every chunk is the spare one or held by a slot. */
  ghost predicate Owned(t: Trie, chunks: Chunks, spare: Ptr)
    requires Placed(t)
  {
    forall p :: p in chunks ==> p == spare || exists c :: Held(t, c) == p
  }

  /** Chunks belong to one slot each; a slot is full exactly when its chunk is. */
  ghost predicate ChunksOk(t: Trie, chunks: Chunks, spare: Ptr)
    requires Placed(t)
  {
    && (forall c {:trigger Held(t, c)} :: Held(t, c) != NULL ==> SlotOk(t, chunks, spare, c))
    && (forall c {:trigger Taken(t, c)} :: Taken(t, c) ==> Held(t, c) != NULL)
    && (forall c, d {:trigger Held(t, c), Held(t, d)} :: Held(t, c) == Held(t, d) && Held(t, c) != NULL ==> c == d)
    && (spare != NULL ==> spare in chunks && |chunks[spare].bits| == BITS)
    && Owned(t, chunks, spare)
    && NULL !in chunks
  }

  /** `id` is allocated. */
  ghost predicate Has(t: Trie, chunks: Chunks, id: int)
    requires Placed(t)
  {
    && id >= 0 && Held(t, id / BITS) in chunks && |chunks[Held(t, id / BITS)].bits| == BITS
       && Held(t, id / BITS) != NULL
    && chunks[Held(t, id / BITS)].bits[id % BITS]
  }

  ghost function IdSet(t: Trie, chunks: Chunks): set<int>
    requires Placed(t)
  {
    set id | 0 <= id < MAX_IDR_BIT && Has(t, chunks, id)
  }

  ghost function Below(n: nat): set<int> {
    if n == 0 then {} else Below(n - 1) + {n - 1}
  }

  lemma {:induction false} BelowSize(n: nat)
    ensures |Below(n)| == n && forall i :: i in Below(n) <==> 0 <= i < n
  {
    if n > 0 {
      BelowSize(n - 1);
    }
  }

  /** A chunk is full exactly when its count says so. */
  lemma FullCount(k: Chunk)
    requires |k.bits| == BITS
    ensures |SetBits(k)| == BITS <==> AllSet(k)
    ensures |SetBits(k)| <= BITS
  {
    BelowSize(BITS);
    Subset(SetBits(k), Below(BITS));
    if AllSet(k) {
      assert SetBits(k) == Below(BITS);
    }
    if SetBits(k) == Below(BITS) {
      forall i | 0 <= i < |k.bits| ensures k.bits[i] { assert i in SetBits(k); }
    }
  }

  lemma {:induction false} Subset<T>(a: set<T>, b: set<T>)
    requires a <= b
    ensures |a| <= |b| && (|a| == |b| ==> a == b)
    decreases |b|
  {
    if a != {} {
      var x :| x in a;
      Subset(a - {x}, b - {x});
      assert a == a - {x} + {x} && b == b - {x} + {x};
    }
  }

  function WithSet(k: Chunk, o: int): Chunk
    requires 0 <= o < |k.bits|
  {
    Chunk(k.nrBusy + 1, k.bits[o := true])
  }

  lemma SetOne(k: Chunk, o: int)
    requires |k.bits| == BITS && 0 <= o < BITS && !k.bits[o] && k.nrBusy == |SetBits(k)|
    ensures ChunkOk(WithSet(k, o)) && (WithSet(k, o).nrBusy == BITS <==> AllSet(WithSet(k, o)))
  {
    assert SetBits(WithSet(k, o)) == SetBits(k) + {o};
    FullCount(WithSet(k, o));
  }

  function WithClear(k: Chunk, o: int): Chunk
    requires 0 <= o < |k.bits|
  {
    Chunk(k.nrBusy - 1, k.bits[o := false])
  }

  lemma ClearOne(k: Chunk, o: int)
    requires ChunkOk(k) && 0 <= o < BITS && k.bits[o]
    ensures var m := WithClear(k, o);
            |m.bits| == BITS && m.nrBusy == |SetBits(m)| && !AllSet(m) && (m.nrBusy != 0 ==> ChunkOk(m))
    ensures WithClear(k, o).nrBusy == 0 ==> forall i :: 0 <= i < BITS ==> !WithClear(k, o).bits[i]
  {
    var m := WithClear(k, o);
    assert SetBits(m) == SetBits(k) - {o};
    assert !m.bits[o];
    if m.nrBusy == 0 {
      assert SetBits(m) == {};
      forall i | 0 <= i < BITS ensures !m.bits[i] {
        assert i !in SetBits(m);
      }
    }
  }

  const Zeros: seq<bool> := seq(BITS, _ => false)

  lemma OkAlike(t: Trie, u: Trie, chunks: Chunks, spare: Ptr)
    requires Placed(t) && Placed(u) && ChunksOk(t, chunks, spare)
    requires forall c {:trigger Held(u, c)} {:trigger Taken(u, c)} ::
        Held(u, c) == Held(t, c) && Taken(u, c) == Taken(t, c)
    ensures ChunksOk(u, chunks, spare) && IdSet(u, chunks) == IdSet(t, chunks)
    ensures forall id :: Has(u, chunks, id) == Has(t, chunks, id)
  {
    hide Placed, Held, Taken;
    forall c | Held(u, c) != NULL ensures SlotOk(u, chunks, spare, c) {
      assert SlotOk(t, chunks, spare, c);
    }
    OwnedMoves(t, u, chunks, spare, chunks, spare, NULL);
    forall id ensures Has(u, chunks, id) == Has(t, chunks, id) {
      assert Held(u, id / BITS) == Held(t, id / BITS);
    }
  }

  lemma OkSame(t: Trie, u: Trie, chunks: Chunks, spare: Ptr)
    requires Placed(t) && Placed(u) && ChunksOk(t, chunks, spare) && Same(t, u)
    ensures ChunksOk(u, chunks, spare) && IdSet(u, chunks) == IdSet(t, chunks)
    ensures forall id :: Has(u, chunks, id) == Has(t, chunks, id)
  {
    hide Placed, Held, Taken, HintOk;
    OkAlike(t, u, chunks, spare);
  }

  /** Opening a slot that was not full changes nothing. */
  lemma OkOpens(t: Trie, u: Trie, chunks: Chunks, spare: Ptr, c: int)
    requires Placed(t) && Placed(u) && ChunksOk(t, chunks, spare) && Opens(t, u, c) && !Taken(t, c)
    ensures ChunksOk(u, chunks, spare) && IdSet(u, chunks) == IdSet(t, chunks)
  {
    hide Placed, Held, Taken;
    OkAlike(t, u, chunks, spare);
  }

  /** Owners carry over when slots keep what they hold, except for the chunk `moved`. */
  lemma OwnedMoves(t: Trie, u: Trie, chunks: Chunks, spare: Ptr, chunks': Chunks, spare': Ptr, moved: Ptr)
    requires Placed(t) && Placed(u) && Owned(t, chunks, spare)
    requires forall c :: Held(t, c) != NULL && Held(t, c) != moved ==> Held(u, c) == Held(t, c)
    requires forall p :: p in chunks' ==>
        p == spare' || (p in chunks && p != NULL && p != spare && p != moved) || exists c :: Held(u, c) == p
    ensures Owned(u, chunks', spare')
  {
    hide Placed, Held;
    forall p | p in chunks' ensures p == spare' || exists c :: Held(u, c) == p {
      if p in chunks && p != NULL && p != spare && p != moved {
        var c :| Held(t, c) == p;
        assert Held(u, c) == p;
      }
    }
  }

  /** `u` and its chunks have the id `id` more than `t` and its chunks. */
  ghost predicate Gains(t: Trie, chunks: Chunks, u: Trie, chunks': Chunks, id: int)
    requires Placed(t) && Placed(u)
  {
    forall j {:trigger Has(u, chunks', j)} :: Has(u, chunks', j) <==> j == id || Has(t, chunks, j)
  }

  /** `u` and its chunks have the id `id` less than `t` and its chunks. */
  ghost predicate Loses(t: Trie, chunks: Chunks, u: Trie, chunks': Chunks, id: int)
    requires Placed(t) && Placed(u)
  {
    forall j {:trigger Has(u, chunks', j)} :: Has(u, chunks', j) <==> j != id && Has(t, chunks, j)
  }

  lemma GainsIds(t: Trie, chunks: Chunks, u: Trie, chunks': Chunks, id: int)
    requires Placed(t) && Placed(u) && Gains(t, chunks, u, chunks', id) && 0 <= id < MAX_IDR_BIT
    ensures IdSet(u, chunks') == IdSet(t, chunks) + {id}
  {
    hide Has;
  }

  lemma LosesIds(t: Trie, chunks: Chunks, u: Trie, chunks': Chunks, id: int)
    requires Placed(t) && Placed(u) && Loses(t, chunks, u, chunks', id)
    ensures IdSet(u, chunks') == IdSet(t, chunks) - {id}
  {
    hide Has;
  }

  lemma FirstBit(o: int)
    requires 0 <= o < BITS
    ensures var k := WithSet(Chunk(0, Zeros), o); ChunkOk(k) && !AllSet(k)
  {
    var k := Chunk(0, Zeros);
    assert SetBits(k) == {};
    SetOne(k, o);
    assert !WithSet(k, o).bits[if o == 0 then 1 else 0];
  }

  /** Ids and (chunk, offset) pairs. */
  lemma IdParts(j: int, c: int, o: int)
    requires 0 <= o < BITS
    ensures j == c * BITS + o <==> j / BITS == c && j % BITS == o
  {
  }

  /** The chunk at slot `c` changes its bit `o` to `on`; all else stays. */
  ghost predicate BitMoves(t: Trie, chunks: Chunks, u: Trie, chunks': Chunks, c: int, o: int, on: bool)
    requires Placed(t) && Placed(u)
  {
    && c >= 0 && 0 <= o < BITS
    && (forall d :: d != c ==>
          Held(u, d) == Held(t, d) && (Held(t, d) != NULL && Held(t, d) in chunks ==>
            Held(t, d) in chunks' && chunks'[Held(t, d)] == chunks[Held(t, d)]))
    && (forall d :: d != c && Held(t, d) != NULL && Held(t, d) in chunks' ==> Held(t, d) in chunks)
    && forall i :: 0 <= i < BITS ==>
         (Holding(u, chunks', c, i) <==> if i == o then on else Holding(t, chunks, c, i))
  }

  ghost predicate Holding(t: Trie, chunks: Chunks, c: int, i: int)
    requires Placed(t) && 0 <= i < BITS
  {
    Held(t, c) in chunks && |chunks[Held(t, c)].bits| == BITS && Held(t, c) != NULL && chunks[Held(t, c)].bits[i]
  }

  lemma BitMovesHas(t: Trie, chunks: Chunks, u: Trie, chunks': Chunks, c: int, o: int, on: bool)
    requires Placed(t) && Placed(u) && BitMoves(t, chunks, u, chunks', c, o, on)
    ensures on ==> Gains(t, chunks, u, chunks', c * BITS + o)
    ensures !on ==> Loses(t, chunks, u, chunks', c * BITS + o)
  {
    hide Placed, Held;
    forall j ensures Has(u, chunks', j) <==> if j == c * BITS + o then on else Has(t, chunks, j) {
      if j >= 0 {
        IdParts(j, c, o);
        assert Has(u, chunks', j) <==> Holding(u, chunks', j / BITS, j % BITS);
        assert Has(t, chunks, j) <==> Holding(t, chunks, j / BITS, j % BITS);
      }
    }
  }

  /** The first id of an empty slot: the spare chunk goes in with one bit set. */
  lemma NewChunk(t: Trie, u: Trie, chunks: Chunks, spare: Ptr, c: int, o: int)
    requires Placed(t) && Placed(u) && ChunksOk(t, chunks, spare) && spare != NULL
    requires c >= 0 && 0 <= o < BITS && Held(t, c) == NULL && !Taken(t, c) && Holds(t, u, c, spare)
      && c * BITS + o < MAX_IDR_BIT
    ensures var chunks' := chunks[spare := WithSet(Chunk(0, Zeros), o)];
            ChunksOk(u, chunks', NULL) && Gains(t, chunks, u, chunks', c * BITS + o)
  {
    hide Placed, Held, Taken, SetBits, AllSet, ChunkOk, Owned, Gains;
    var chunks': Chunks := chunks[spare := WithSet(Chunk(0, Zeros), o)];
    FirstBit(o);
    assert Held(u, c) == spare;
    forall d ensures Held(u, d) == (if d == c then spare else Held(t, d)) && Taken(u, d) == Taken(t, d) { }
    forall d | Held(u, d) != NULL ensures SlotOk(u, chunks', NULL, d) {
      if d != c { assert SlotOk(t, chunks, spare, d); }
    }
    OwnedMoves(t, u, chunks, spare, chunks', NULL, NULL);
    forall i | 0 <= i < BITS ensures Holding(u, chunks', c, i) <==> i == o { }
    assert BitMoves(t, chunks, u, chunks', c, o, true);
    BitMovesHas(t, chunks, u, chunks', c, o, true);
  }

  /** A further id in a chunk; the slot becomes full exactly when the chunk does. */
  lemma OldChunk(t: Trie, u: Trie, chunks: Chunks, spare: Ptr, c: int, o: int)
    requires Placed(t) && Placed(u) && ChunksOk(t, chunks, spare)
    requires c >= 0 && Held(t, c) != NULL && Held(t, c) in chunks && |chunks[Held(t, c)].bits| == BITS
    requires 0 <= o < BITS && !chunks[Held(t, c)].bits[o] && c * BITS + o < MAX_IDR_BIT
    requires if WithSet(chunks[Held(t, c)], o).nrBusy == BITS then Fills(t, u, c) else Same(t, u)
    ensures var chunks' := chunks[Held(t, c) := WithSet(chunks[Held(t, c)], o)];
            ChunksOk(u, chunks', spare) && Gains(t, chunks, u, chunks', c * BITS + o)
  {
    hide Placed, Held, Taken, SetBits, AllSet, Owned, Gains, HintOk;
    var p: Ptr := Held(t, c);
    var chunks': Chunks := chunks[p := WithSet(chunks[p], o)];
    assert SlotOk(t, chunks, spare, c);
    assert !AllSet(chunks[p]) by { NotAll(chunks[p], o); }
    SetOne(chunks[p], o);
    forall d
      ensures Held(u, d) == Held(t, d) && (d != c ==> Taken(u, d) == Taken(t, d))
        && (d != c && Held(t, d) != NULL ==> Held(t, d) != p)
    {
      assert Held(t, c) == p;
    }
    forall d | Held(u, d) != NULL ensures SlotOk(u, chunks', spare, d) {
      if d != c { assert SlotOk(t, chunks, spare, d); }
    }
    assert Held(u, c) == p;
    OwnedMoves(t, u, chunks, spare, chunks', spare, NULL);
    assert BitMoves(t, chunks, u, chunks', c, o, true);
    BitMovesHas(t, chunks, u, chunks', c, o, true);
  }

  lemma NotAll(k: Chunk, o: int)
    requires |k.bits| == BITS && 0 <= o < BITS && !k.bits[o]
    ensures !AllSet(k)
  {
  }

  /** An id taken out of a chunk that keeps others. */
  lemma KeepChunk(t: Trie, u: Trie, chunks: Chunks, spare: Ptr, c: int, o: int)
    requires Placed(t) && Placed(u) && ChunksOk(t, chunks, spare) && Opens(t, u, c)
    requires c >= 0 && Held(t, c) != NULL && Held(t, c) in chunks && |chunks[Held(t, c)].bits| == BITS
    requires 0 <= o < BITS && chunks[Held(t, c)].bits[o] && chunks[Held(t, c)].nrBusy != 1
    ensures var chunks' := chunks[Held(t, c) := WithClear(chunks[Held(t, c)], o)];
            ChunksOk(u, chunks', spare) && Loses(t, chunks, u, chunks', c * BITS + o)
  {
    hide Placed, Held, Taken, SetBits, AllSet, Owned, Loses;
    var p: Ptr := Held(t, c);
    var chunks': Chunks := chunks[p := WithClear(chunks[p], o)];
    assert SlotOk(t, chunks, spare, c);
    ClearOne(chunks[p], o);
    forall d
      ensures Held(u, d) == Held(t, d) && (Taken(u, d) <==> d != c && Taken(t, d))
        && (d != c && Held(t, d) != NULL ==> Held(t, d) != p)
    {
      assert Held(t, c) == p;
    }
    forall d | Held(u, d) != NULL ensures SlotOk(u, chunks', spare, d) {
      if d != c { assert SlotOk(t, chunks, spare, d); }
    }
    assert Held(u, c) == p;
    OwnedMoves(t, u, chunks, spare, chunks', spare, NULL);
    assert BitMoves(t, chunks, u, chunks', c, o, false);
    BitMovesHas(t, chunks, u, chunks', c, o, false);
  }

  /** Slots after the last id of a chunk has gone. */
  lemma GivenUpSlots(t: Trie, u: Trie, v: Trie, c: int)
    requires Placed(t) && Placed(u) && Placed(v) && Opens(t, u, c) && Holds(u, v, c, NULL)
    ensures forall d {:trigger Held(v, d)} {:trigger Taken(v, d)} ::
        Held(v, d) == (if d == c then NULL else Held(t, d)) && (Taken(v, d) <==> d != c && Taken(t, d))
  {
    hide Placed, Held, Taken;
    forall d ensures Held(v, d) == (if d == c then NULL else Held(t, d)) && (Taken(v, d) <==> d != c && Taken(t, d)) {
      assert Held(u, d) == Held(t, d);
    }
  }

  /** The last id of a chunk: the slot is emptied and the chunk kept as the spare, or freed. */
  lemma GiveUpChunk(t: Trie, u: Trie, v: Trie, chunks: Chunks, spare: Ptr, c: int, o: int)
    requires Placed(t) && Placed(u) && Placed(v) && ChunksOk(t, chunks, spare) && Opens(t, u, c) && Holds(u, v, c, NULL)
    requires c >= 0 && Held(t, c) != NULL && Held(t, c) in chunks && |chunks[Held(t, c)].bits| == BITS
    requires 0 <= o < BITS && chunks[Held(t, c)].bits[o] && chunks[Held(t, c)].nrBusy == 1
    ensures var p: Ptr := Held(t, c);
            var chunks': Chunks := if spare == NULL then chunks[p := WithClear(chunks[p], o)] else chunks - {p};
            ChunksOk(v, chunks', if spare == NULL then p else spare) && Loses(t, chunks, v, chunks', c * BITS + o)
  {
    hide Placed, Held, Taken, SetBits, AllSet, Owned, Loses, Opens, Holds, BitMoves, Holding;
    var p: Ptr := Held(t, c);
    var chunks': Chunks := if spare == NULL then chunks[p := WithClear(chunks[p], o)] else chunks - {p};
    var spare' := if spare == NULL then p else spare;
    GivenUpSlots(t, u, v, c);
    assert SlotOk(t, chunks, spare, c);
    forall d | d != c && Held(t, d) != NULL ensures Held(t, d) != p { }
    forall d | Held(v, d) != NULL ensures SlotOk(v, chunks', spare', d) {
      assert SlotOk(t, chunks, spare, d);
    }
    OwnedMoves(t, v, chunks, spare, chunks', spare', p);
    GivenUpBits(t, v, chunks, chunks', c, o);
    BitMovesHas(t, chunks, v, chunks', c, o, false);
  }

  lemma GivenUpBits(t: Trie, v: Trie, chunks: Chunks, chunks': Chunks, c: int, o: int)
    requires Placed(t) && Placed(v) && c >= 0 && 0 <= o < BITS && Held(t, c) != NULL && Held(t, c) in chunks
    requires ChunkOk(chunks[Held(t, c)]) && chunks[Held(t, c)].bits[o] && chunks[Held(t, c)].nrBusy == 1
    requires chunks' == chunks[Held(t, c) := WithClear(chunks[Held(t, c)], o)] || chunks' == chunks - {Held(t, c)}
    requires forall d ::
        Held(v, d) == (if d == c then NULL else Held(t, d))
        && (d != c && Held(t, d) != NULL ==> Held(t, d) != Held(t, c))
    ensures BitMoves(t, chunks, v, chunks', c, o, false)
  {
    hide Placed, Held, SetBits;
    var p: Ptr := Held(t, c);
    ClearOne(chunks[p], o);
    forall i | 0 <= i < BITS && i != o ensures !chunks[p].bits[i] {
      assert !WithClear(chunks[p], o).bits[i];
    }
  }

  // ---------- the allocator ----------

  lemma ChunkAt(t: Trie, chunks: Chunks, spare: Ptr, c: int)
    requires Placed(t) && ChunksOk(t, chunks, spare) && Held(t, c) != NULL
    ensures Held(t, c) in chunks && ChunkOk(chunks[Held(t, c)]) && (Taken(t, c) <==> AllSet(chunks[Held(t, c)]))
      && c >= 0
    ensures forall j {:trigger Has(t, chunks, j)} ::
        j >= 0 && j / BITS == c ==> (Has(t, chunks, j) <==> chunks[Held(t, c)].bits[j % BITS])
  {
    assert SlotOk(t, chunks, spare, c);
  }

  lemma NoChunkAt(t: Trie, chunks: Chunks, spare: Ptr, c: int)
    requires Placed(t) && ChunksOk(t, chunks, spare) && Held(t, c) == NULL
    ensures !Taken(t, c)
    ensures forall j {:trigger Has(t, chunks, j)} :: j >= 0 && j / BITS == c ==> !Has(t, chunks, j)
  {
  }

  /** Every id of a full chunk is allocated, and none lies past 2^31. */
  lemma FullChunk(t: Trie, chunks: Chunks, spare: Ptr, j: int)
    requires Placed(t) && ChunksOk(t, chunks, spare) && j >= 0 && Taken(t, j / BITS)
    ensures Has(t, chunks, j) && j < MAX_IDR_BIT
  {
    hide Placed, Held, Taken;
    var c := j / BITS;
    assert Held(t, c) != NULL;
    ChunkAt(t, chunks, spare, c);
    assert SlotOk(t, chunks, spare, c);
    IdParts(j, c, j % BITS);
  }

  lemma HasInSet(t: Trie, chunks: Chunks, spare: Ptr)
    requires Placed(t) && ChunksOk(t, chunks, spare)
    ensures forall j :: j in IdSet(t, chunks) <==> Has(t, chunks, j)
  {
    hide Placed, Held, Taken;
    forall j | Has(t, chunks, j) ensures j < MAX_IDR_BIT && j >= 0 {
      assert SlotOk(t, chunks, spare, j / BITS);
      IdParts(j, j / BITS, j % BITS);
    }
  }

  lemma EmptyIds(t: Trie)
    requires Inv(t) && t.at == map[]
    ensures ChunksOk(t, map[], NULL) && IdSet(t, map[]) == {}
  {
  }

  lemma AddSpare(t: Trie, chunks: Chunks, p: Ptr)
    requires Placed(t) && ChunksOk(t, chunks, NULL) && p != NULL && p !in chunks
    ensures ChunksOk(t, chunks[p := Chunk(0, Zeros)], p) && IdSet(t, chunks[p := Chunk(0, Zeros)]) == IdSet(t, chunks)
  {
    hide Placed, Held, Taken, Owned;
    var chunks' := chunks[p := Chunk(0, Zeros)];
    forall c | Held(t, c) != NULL ensures SlotOk(t, chunks', p, c) { assert SlotOk(t, chunks, NULL, c); }
    OwnedMoves(t, t, chunks, NULL, chunks', p, NULL);
    forall j ensures Has(t, chunks', j) == Has(t, chunks, j) {
      if Held(t, j / BITS) != NULL { assert SlotOk(t, chunks, NULL, j / BITS); }
    }
  }

  lemma SpareChunk(t: Trie, chunks: Chunks, spare: Ptr)
    requires Placed(t) && ChunksOk(t, chunks, spare) && spare != NULL
    ensures spare in chunks
  {
  }

  lemma NotYetFull(o: int)
    requires 0 <= o < BITS
    ensures WithSet(Chunk(0, Zeros), o).nrBusy == 1
  {
  }

  /** Between the offset the search starts from and the first clear bit, every id is allocated. */
  lemma InChunk(t: Trie, chunks: Chunks, c: int, from: nat, o: nat, p: Ptr)
    requires Placed(t) && c >= 0 && from <= o <= BITS
    requires from < o ==>
        p in chunks && |chunks[p].bits| == BITS && p != NULL && p == Held(t, c)
        && forall i :: from <= i < o ==> chunks[p].bits[i]
    ensures forall j :: c * BITS + from <= j < c * BITS + o ==> Has(t, chunks, j)
  {
    forall j | c * BITS + from <= j < c * BITS + o ensures Has(t, chunks, j) {
      IdParts(j, c, j - c * BITS);
    }
  }

  lemma NotHas(t: Trie, chunks: Chunks, c: int, o: nat)
    requires Placed(t) && o < BITS
    requires Held(t, c) == NULL || (Held(t, c) in chunks
                                && |chunks[Held(t, c)].bits| == BITS && !chunks[Held(t, c)].bits[o])
    ensures !Has(t, chunks, c * BITS + o)
  {
    IdParts(c * BITS + o, c, o);
  }

  /** All ids below the slot `s` are allocated once those before the search are and the slots between are full. */
  lemma NoneLeft(t: Trie, chunks: Chunks, spare: Ptr, start: int, from: int, c: int, s: int, known: bool)
    requires Placed(t) && ChunksOk(t, chunks, spare) && 0 <= c && start <= from && c * BITS <= from < (c + 1) * BITS
      && start >= 0
    requires forall j :: start <= j < from ==> Has(t, chunks, j)
    requires known ==> forall d :: c <= d < s ==> Taken(t, d)
    ensures known && s > c ==> forall j :: start <= j < s * BITS ==> Has(t, chunks, j)
  {
    if known && s > c {
      forall j | start <= j < s * BITS ensures Has(t, chunks, j) {
        if j >= from {
          FullChunk(t, chunks, spare, j);
        }
      }
    }
  }

  /** All ids from `start` up to the chunk at the slot `s` are allocated, and none of that chunk. */
  ghost predicate FirstOfChunk(ids: set<int>, start: int, s: int) {
    && s >= 0 && start < (s + 1) * BITS && (forall j :: start <= j < s * BITS ==> j in ids)
    && forall j :: s * BITS <= j < (s + 1) * BITS ==> j !in ids
  }

  /** The least free id from `start` on would be the first one of its chunk. */
  ghost predicate WantsChunk(ids: set<int>, start: int) {
    exists s :: FirstOfChunk(ids, start, s)
  }

  lemma NoChunkYet(t: Trie, chunks: Chunks, spare: Ptr, start: int, s: int)
    requires Placed(t) && ChunksOk(t, chunks, spare) && s >= 0 && start < (s + 1) * BITS && Held(t, s) == NULL
    requires forall j :: start <= j < s * BITS ==> j in IdSet(t, chunks)
    ensures WantsChunk(IdSet(t, chunks), start)
  {
    NoChunkAt(t, chunks, spare, s);
    hide ChunksOk, Placed, Held, Taken;
    forall j | s * BITS <= j < (s + 1) * BITS ensures j !in IdSet(t, chunks) {
      assert j / BITS == s;
    }
    assert FirstOfChunk(IdSet(t, chunks), start, s);
  }

  lemma MissingChunk(t: Trie, chunks: Chunks, spare: Ptr, start: int, from: int, c: int)
    requires Missing(t, c) && Placed(t) && ChunksOk(t, chunks, spare) && 0 <= c && 0 <= start <= from
      && c * BITS <= from < (c + 1) * BITS
    requires forall j :: start <= j < from ==> j in IdSet(t, chunks)
    ensures WantsChunk(IdSet(t, chunks), start)
  {
    var s :| LeastFree(t, c, s) && Held(t, s) == NULL;
    HasInSet(t, chunks, spare);
    hide ChunksOk, Placed, Held, Has, IdSet, WantsChunk;
    NoneLeft(t, chunks, spare, start, from, c, s, true);
    NoChunkYet(t, chunks, spare, start, s);
  }

  lemma OpensHeld(t: Trie, u: Trie, c: int)
    requires Placed(t) && Placed(u) && Opens(t, u, c)
    ensures Held(u, c) == Held(t, c) && !Taken(u, c)
  {
  }

  /** Whether `id` is allocated, read off its slot. */
  lemma HasAt(t: Trie, chunks: Chunks, spare: Ptr, id: int)
    requires Placed(t) && ChunksOk(t, chunks, spare) && id >= 0
    ensures var p := Held(t, id / BITS);
            && (p != NULL ==> p in chunks && |chunks[p].bits| == BITS)
            && (Has(t, chunks, id) <==> p != NULL && chunks[p].bits[id % BITS])
            && (!Has(t, chunks, id) ==> !Taken(t, id / BITS))
  {
    hide Placed, Held, Taken;
    if Held(t, id / BITS) != NULL {
      assert SlotOk(t, chunks, spare, id / BITS);
    }
  }

  /** A chunk other than the spare one has an id in it. */
  lemma ChunkHasId(t: Trie, chunks: Chunks, spare: Ptr, p: Ptr) returns (id: int)
    requires Placed(t) && ChunksOk(t, chunks, spare) && p in chunks && p != spare
    ensures id in IdSet(t, chunks)
  {
    hide Placed, Held, Taken, IdSet;
    HasInSet(t, chunks, spare);
    var c :| Held(t, c) == p;
    assert SlotOk(t, chunks, spare, c);
    SomeBit(chunks[p]);
    var o :| 0 <= o < BITS && chunks[p].bits[o];
    IdParts(c * BITS + o, c, o);
    id := c * BITS + o;
    assert Has(t, chunks, id);
  }

  lemma NoChunks(t: Trie, chunks: Chunks, spare: Ptr)
    requires Placed(t) && ChunksOk(t, chunks, spare) && forall p :: p in chunks ==> p == spare
    ensures IdSet(t, chunks) == {}
  {
    hide Placed, Held, Taken, IdSet;
    HasInSet(t, chunks, spare);
    forall c ensures Held(t, c) == NULL {
      assert Held(t, c) != NULL ==> SlotOk(t, chunks, spare, c);
    }
    forall j ensures j !in IdSet(t, chunks) {
      assert !Has(t, chunks, j);
    }
  }

  /** Bitmaps are there besides the spare one exactly when there are ids. */
  lemma AnyChunk(t: Trie, chunks: Chunks, spare: Ptr)
    requires Placed(t) && ChunksOk(t, chunks, spare)
    ensures chunks - {spare} == map[] <==> IdSet(t, chunks) == {}
    ensures (chunks - {spare}).Keys == chunks.Keys - {spare}
  {
    hide Placed, Held, Taken, IdSet, ChunksOk;
    if p :| p in chunks && p != spare {
      var id := ChunkHasId(t, chunks, spare, p);
      assert p in (chunks - {spare}).Keys;
    } else {
      NoChunks(t, chunks, spare);
      assert (chunks - {spare}).Keys == {};
    }
  }

  lemma SomeBit(k: Chunk)
    requires ChunkOk(k)
    ensures exists o :: 0 <= o < BITS && k.bits[o]
  {
    assert |SetBits(k)| != 0;
    var o :| o in SetBits(k);
    assert k.bits[o];
  }

  class Ida {
    const idr: Idr
    var chunks: Chunks
    var freeBitmap: Ptr

    ghost predicate Valid()
      reads this, idr
    {
      idr.Valid() && idr.chunked && ChunksOk(idr.View(), chunks, freeBitmap)
    }

    /** The allocated ids. */
    ghost function Ids(): set<int>
      requires Valid()
      reads this, idr
    {
      IdSet(idr.View(), chunks)
    }

    constructor ()
      ensures Valid() && Ids() == {} && fresh(idr)
    {
      idr := new Idr(true);
      chunks, freeBitmap := map[], NULL;
      new;
      EmptyIds(idr.View());
    }

    /** Keeps the chunk as the spare one, or frees it. */
    method FreeBitmap(p: Ptr)
      requires p in chunks
      modifies `chunks, `freeBitmap
      ensures freeBitmap == if old(freeBitmap) == NULL then p else old(freeBitmap)
      ensures chunks == if old(freeBitmap) == NULL then old(chunks) else old(chunks) - {p}
    {
      if freeBitmap == NULL {
        freeBitmap := p;
      } else {
        chunks := chunks - {p};
      }
    }

    /** Reserves what the next allocation may need; `memory` says whether malloc succeeds. */
    method PreGet(memory: bool) returns (ok: bool)
      requires Valid()
      modifies idr, this
      ensures Valid() && Ids() == old(Ids())
      ensures ok ==> |idr.idFree| >= MAX_IDR_FREE && freeBitmap != NULL
      ensures ok <==> memory || old(freeBitmap) != NULL
    {
      hide Inv, Placed, ChunksOk, IdSet, Same;
      ghost var t := idr.View();
      idr.PreGet();
      OkSame(t, idr.View(), chunks, freeBitmap);
      if freeBitmap == NULL {
        if !memory {
          return false;
        }
        FreshExists(chunks.Keys);
        var p: Ptr :| p != NULL && p !in chunks;
        AddSpare(idr.View(), chunks, p);
        chunks := chunks[p := Chunk(0, Zeros)];
        FreeBitmap(p);
      }
      ok := true;
    }

    /** The chunk `p` is at slot `c`: one that was there, or the spare one, new at an empty slot. */
    ghost predicate Ready(p: Ptr, c: int, t: Trie, was: Chunks, spare: Ptr)
      reads this, idr
    {
      && idr.Valid() && idr.chunked && Placed(t) && ChunksOk(t, was, spare)
      && c >= 0 && p != NULL && p in chunks && |chunks[p].bits| == BITS && !AllSet(chunks[p])
         && Held(idr.View(), c) == p && !Taken(idr.View(), c)
      && ( || (freeBitmap == spare && chunks == was && t == idr.View())
           || (&& freeBitmap == NULL && spare == p && chunks == was[p := Chunk(0, Zeros)]
               && Held(t, c) == NULL && Holds(t, idr.View(), c, p) && !Taken(t, c)))
    }

    /** The chunk at the slot `c`, which `pa` leads to; the spare one is installed if there is none. */
    method ChunkAtSlot(c: int, pa: array<Ptr>) returns (p: Ptr)
      requires Valid() && idr.layers > 0 && 0 <= c <= IdrMax(idr.layers) && !Taken(idr.View(), c)
      requires pa.Length == 5 && PathTo(idr.View(), pa[..], c, 0)
      modifies idr`heap, `chunks, `freeBitmap
      ensures p == NULL ==>
          Valid() && idr.View() == old(idr.View()) && chunks == old(chunks) && freeBitmap == NULL == old(freeBitmap)
          && Held(idr.View(), c) == NULL
      ensures p != NULL ==>
          Ready(p, c, old(idr.View()), old(chunks), old(freeBitmap)) && PathTo(idr.View(), pa[..], c, 0)
    {
      hide Inv, Placed, ChunksOk, Held, Taken;
      ghost var u := idr.View();
      Live(u, On(c, 0));
      LeafFacts(u, c);
      p := idr.heap[pa[0]].ary[c % IDR_SIZE];
      if p == NULL {
        NoChunkAt(u, chunks, freeBitmap, c);
        p := freeBitmap;
        freeBitmap := NULL;
        if p == NULL {
          return;
        }
        SpareChunk(u, chunks, p);
        chunks := chunks[p := Chunk(0, Zeros)];
        idr.InstallChunk(c, p, pa);
        assert !chunks[p].bits[0];
        assert Held(idr.View(), c) == p && !Taken(idr.View(), c);
      } else {
        ChunkAt(u, chunks, freeBitmap, c);
      }
    }

    /** Marks the bit `o` of the chunk `p` at the slot `c`, which `pa` leads to. */
    method Mark(p: Ptr, c: int, o: nat, pa: array<Ptr>, ghost t: Trie, ghost was: Chunks, ghost spare: Ptr)
      requires Ready(p, c, t, was, spare) && idr.layers > 0 && pa.Length == 5 && PathTo(idr.View(), pa[..], c, 0)
      requires o < BITS && c * BITS + o < MAX_IDR_BIT && !chunks[p].bits[o]
      modifies idr`heap, `chunks
      ensures Valid() && Gains(t, was, idr.View(), chunks, c * BITS + o)
    {
      hide Inv, Placed, ChunksOk, Same, Held, Taken, Gains, SetBits, ChunkOk;
      ghost var u := idr.View();
      var k := WithSet(chunks[p], o);
      SameRefl(u);
      if chunks[p] == Chunk(0, Zeros) { NotYetFull(o); }
      if t == u { ChunkAt(t, was, spare, c); }
      chunks := chunks[p := k];
      if k.nrBusy == BITS {
        idr.SetFull(pa, c);
      }
      assert chunks == was[p := k];
      if t == u && freeBitmap == spare {
        OldChunk(t, idr.View(), was, spare, c, o);
      } else {
        NewChunk(t, idr.View(), was, spare, c, o);
      }
    }

    /** Takes the id at the bit `o` of the chunk `p`, and gives one spare layer back. */
    method Take(p: Ptr, c: int, o: nat, pa: array<Ptr>, ghost t: Trie, ghost was: Chunks, ghost spare: Ptr)
      requires Ready(p, c, t, was, spare) && idr.layers > 0 && pa.Length == 5 && PathTo(idr.View(), pa[..], c, 0)
      requires o < BITS && c * BITS + o < MAX_IDR_BIT && !chunks[p].bits[o]
      modifies idr, `chunks
      ensures Valid() && Ids() == IdSet(t, was) + {c * BITS + o} && c * BITS + o !in IdSet(t, was)
      ensures idr.idFree == [] || |idr.idFree| < |old(idr.idFree)|
    {
      hide Inv, Placed, ChunksOk, Same, Held, Taken, Has, IdSet, Gains;
      HasInSet(t, was, spare);
      NotHas(t, was, c, o);
      Mark(p, c, o, pa, t, was, spare);
      GainsIds(t, was, idr.View(), chunks, c * BITS + o);
      ghost var w := idr.View();
      idr.DropSpare();
      OkSame(w, idr.View(), chunks, freeBitmap);
    }

    /**
     * The first slot from `c` on with a free id; the ids from `start` up to the place `offset` in `c` are allocated.
     */
    method OpenSlot(c: int, pa: array<Ptr>, ghost start: int, ghost offset: nat) returns (s: int)
      requires Valid() && 0 <= c < MAX_IDR_BIT && offset < BITS && pa.Length == 5 && 0 <= start <= c * BITS + offset
      requires forall j :: start <= j < c * BITS + offset ==> j in Ids()
      modifies idr, pa
      ensures Valid() && Ids() == old(Ids()) && |idr.idFree| <= |old(idr.idFree)|
      ensures s >= 0 ==>
          idr.layers > 0 && c <= s <= IdrMax(idr.layers) && !Taken(idr.View(), s) && PathTo(idr.View(), pa[..], s, 0)
      ensures s > c ==> forall j :: start <= j < s * BITS && j < MAX_IDR_BIT ==> j in Ids()
      ensures s >= 0 && Held(idr.View(), s) != NULL ==> idr.idFree == old(idr.idFree)
      ensures s < 0 ==> s == ENOSPC || s == ENOMEM
      ensures s == ENOSPC ==> forall j :: start <= j < MAX_IDR_BIT ==> j in Ids()
      ensures s == ENOMEM ==> |old(idr.idFree)| < MAX_IDR_FREE && WantsChunk(Ids(), start)
    {
      hide Inv, Placed, ChunksOk, Same, Held, Taken, Has, IdSet, Missing, WantsChunk;
      ghost var t, ids := idr.View(), Ids();
      s := idr.GetEmptySlot(c, true, pa);
      ghost var u := idr.View();
      OkSame(t, u, chunks, freeBitmap);
      HasInSet(u, chunks, freeBitmap);
      assert IdSet(u, chunks) == ids;
      NoneLeft(u, chunks, freeBitmap, start, c * BITS + offset, c, if s < 0 then MAX_IDR_BIT else s,
            s >= 0 || s == ENOSPC);
      if s == ENOMEM { MissingChunk(u, chunks, freeBitmap, start, c * BITS + offset, c); }
    }

    /** The first free place from `from` on in the chunk `p` at slot `c`. */
    method OpenPlace(p: Ptr, c: int, from: nat, ghost t: Trie, ghost was: Chunks, ghost spare: Ptr) returns (o: nat)
      requires Ready(p, c, t, was, spare) && from < BITS
      ensures p in chunks && |chunks[p].bits| == BITS && from <= o <= BITS && (o < BITS ==> !chunks[p].bits[o])
        && (o == BITS ==> from > 0)
      ensures o != from ==> Valid() && idr.View() == t && chunks == was && freeBitmap == spare && Held(t, c) != NULL
      ensures forall j :: c * BITS + from <= j < c * BITS + o ==> j in IdSet(t, was)
    {
      hide Inv, Placed, ChunksOk, Same, Held, Taken, Has, IdSet;
      o := FindNextZeroBit(chunks[p].bits, from);
      assert chunks[p] == Chunk(0, Zeros) ==> !chunks[p].bits[from];
      InChunk(t, was, c, from, o, p);
      HasInSet(t, was, spare);
    }

    /** Allocates the least free id from `start` on; at most one chunk is searched in vain. */
    method GetNewAbove(start: Int32) returns (r: int, id: int, ghost restarts: nat)
      requires Valid() && start >= 0
      modifies idr, this
      ensures Valid() && restarts <= 1
      ensures r == 0 ==>
          start <= id < MAX_IDR_BIT && id !in old(Ids()) && Ids() == old(Ids()) + {id}
          && forall j :: start <= j < id ==> j in old(Ids())
      ensures r != 0 ==> Ids() == old(Ids()) && (r == ENOSPC || r == EAGAIN)
      ensures r == 0 ==> idr.idFree == [] || |idr.idFree| < |old(idr.idFree)|
      ensures r == ENOSPC ==> forall j :: start <= j < MAX_IDR_BIT ==> j in old(Ids())
      ensures r == EAGAIN ==>
          WantsChunk(old(Ids()), start) && (|old(idr.idFree)| < MAX_IDR_FREE || old(freeBitmap) == NULL)
    {
      hide Inv, Placed, ChunksOk, Same, Held, Taken, Has, IdSet, Ready, WantsChunk;
      ghost var ids := Ids();
      var c, offset := start / BITS, start % BITS;
      var pa := new Ptr[5](_ => NULL);
      restarts := 0;
      while true
        invariant Valid() && chunks == old(chunks) && freeBitmap == old(freeBitmap) && idr.idFree == old(idr.idFree)
          && Ids() == ids
        invariant 0 <= c < MAX_IDR_BIT && 0 <= offset < BITS && (offset == 0 || c * BITS + offset == start)
          && start <= c * BITS + offset
        invariant forall j :: start <= j < c * BITS + offset ==> j in ids
        invariant restarts == 0 || (restarts == 1 && offset == 0)
        decreases offset
      {
        var s := OpenSlot(c, pa, start, offset);
        if s < 0 {
          return if s == ENOMEM then EAGAIN else s, 0, restarts;
        }
        if s * BITS >= MAX_IDR_BIT {
          return ENOSPC, 0, restarts;
        }
        if s != c {
          offset := 0;
        }
        c := s;
        ghost var u := idr.View();
        var p := ChunkAtSlot(c, pa);
        if p == NULL {
          NoChunkYet(idr.View(), chunks, freeBitmap, start, c);
          return EAGAIN, 0, restarts;
        }
        var o := OpenPlace(p, c, offset, u, old(chunks), old(freeBitmap));
        if o == BITS {
          c, offset, restarts := c + 1, 0, restarts + 1;
          continue;
        }
        id := c * BITS + o;
        if id >= MAX_IDR_BIT {
          return ENOSPC, 0, restarts;
        }
        Take(p, c, o, pa, u, old(chunks), old(freeBitmap));
        return 0, id, restarts;
      }
    }

    /** Frees `id`, together with its chunk when it was the last id there. */
    method Remove(id: Int32)
      requires Valid() && id >= 0
      modifies idr, this
      ensures Valid() && Ids() == old(Ids()) - {id}
    {
      hide Inv, Placed, ChunksOk, Same, Held, Taken, Has, IdSet, Loses, Opens, Holds;
      ghost var t := idr.View();
      var c, offset := id / BITS, id % BITS;
      IdParts(id, c, offset);
      HasInSet(t, chunks, freeBitmap);
      HasAt(t, chunks, freeBitmap, id);
      if c > IdrMax(idr.layers) {
        HeldInRange(t, c);
        return;
      }
      var leaf := idr.OpenSlotOf(c);
      ghost var u := idr.View();
      OpensHeld(t, u, c);
      if leaf == NULL {
        OkOpens(t, u, chunks, freeBitmap, c);
        return;
      }
      var p := idr.heap[leaf].ary[c % IDR_SIZE];
      if p == NULL || !chunks[p].bits[offset] {
        OkOpens(t, u, chunks, freeBitmap, c);
        return;
      }
      var k := WithClear(chunks[p], offset);
      if k.nrBusy == 0 {
        chunks := chunks[p := k];
        idr.RemoveChunk(leaf, c);
        GiveUpChunk(t, u, idr.View(), old(chunks), freeBitmap, c, offset);
        FreeBitmap(p);
        assert old(freeBitmap) != NULL ==> chunks == old(chunks) - {p};
      } else {
        chunks := chunks[p := k];
        KeepChunk(t, u, old(chunks), freeBitmap, c, offset);
      }
      LosesIds(t, old(chunks), idr.View(), chunks, id);
    }

    /** Allocates the least free id in [start, end), reserving memory first; `end == 0` means no limit. */
    method SimpleGet(start: Int32, end: Int32, memory: bool) returns (ret: int)
      requires Valid() && 0 <= start && 0 <= end && (end == 0 || end >= start)
      modifies idr, this
      ensures Valid()
      ensures ret >= 0 ==>
          start <= ret < Limit(end) && ret !in old(Ids()) && Ids() == old(Ids()) + {ret}
          && forall j :: start <= j < ret ==> j in old(Ids())
      ensures ret < 0 ==> Ids() == old(Ids()) && (ret == ENOSPC || ret == ENOMEM)
      ensures ret == ENOMEM <==> !memory && old(freeBitmap) == NULL
      ensures ret == ENOSPC ==> forall j :: start <= j < Limit(end) ==> j in old(Ids())
    {
      hide Inv, Placed, ChunksOk, IdSet;
      var max := if end == 0 then MAX_IDR_BIT else end - 1;
      var ok := PreGet(memory);
      if !ok {
        return ENOMEM;
      }
      ghost var ids := Ids();
      var r, id, _ := GetNewAbove(start);
      if r != 0 {
        return r;
      }
      if id > max {
        Remove(id);
        assert ids + {id} - {id} == ids;
        return ENOSPC;
      }
      return id;
    }

    /** Releases the tree and the spare chunk; the chunks in the leaves are not freed. */
    method Destroy()
      requires Valid()
      modifies idr, this
      ensures idr.Valid() && idr.Contents() == map[] && freeBitmap == NULL
      ensures chunks.Keys == old(chunks.Keys) - {old(freeBitmap)}
      ensures chunks == map[] <==> old(Ids()) == {}
    {
      hide Inv, Placed, ChunksOk, Has, IdSet, Held, Taken;
      AnyChunk(idr.View(), chunks, freeBitmap);
      idr.Destroy();
      chunks := chunks - {freeBitmap};
      freeBitmap := NULL;
    }
  }

  /** One id allocated: releasing the allocator leaves a bitmap behind. */
  method DestroyLeavesBitmap() returns (ida: Ida)
    ensures ida.idr.Valid() && ida.idr.Contents() == map[] && ida.freeBitmap == NULL && ida.chunks != map[]
  {
    ida := new Ida();
    var ok := ida.PreGet(true);
    ghost var none := ida.Ids();
    var r, id, _ := ida.GetNewAbove(0);
    assert 0 !in none;
    assert id in ida.Ids();
    ida.Destroy();
  }
}
