/** Laying out the compact pool: how many slots are asked for, how they are cut into trunks, and how a trunk begins. */
module CompactInit {
  import opened CompactRing

  const BLOCKS := 16

  /** The slots of a full trunk, its list head included. */
  const TRUNK := 0x10_0000

  /** The slots of a full trunk that can be used. */
  const USABLE := TRUNK - MIN_NODE_SIZE

  /** A trunk of `cnt` slots besides the head can be cut into blocks: the last one has room for a node. */
  predicate Cuttable(cnt: int) {
    && MIN_NODE_SIZE <= cnt && cnt + MIN_NODE_SIZE <= TRUNK
    && ((cnt + MIN_NODE_SIZE) % BLK == 0 || (cnt + MIN_NODE_SIZE) % BLK >= MIN_NODE_SIZE)
  }

  // ---- a fresh trunk of `n` slots ----

  /** The number of blocks. */
  function BlocksOf(n: int): int {
    (n + BLK - 1) / BLK
  }

  /** The head, the rest of block 0, and one node in each other block. */
  function StartOf(i: int): int {
    if i == 0 then 0 else if i == 1 then MIN_NODE_SIZE else BLK * (i - 1)
  }

  function EndOf(i: int, n: int): int {
    if i == 0 then MIN_NODE_SIZE else if BLK * i < n then BLK * i else n
  }

  function FirstRing(n: int): (r: seq<int>)
    requires n >= 0
    ensures |r| == BlocksOf(n) + 1 && forall i :: 0 <= i < |r| ==> r[i] == StartOf(i)
  {
    seq(BlocksOf(n) + 1, i => StartOf(i))
  }

  function FirstNodes(n: int, j: nat): Nodes {
    if j == 0 then map[] else FirstNodes(n, j - 1)[StartOf(j - 1) := EndOf(j - 1, n) - StartOf(j - 1)]
  }

  lemma {:induction false} FirstNodesAt(n: int, j: nat)
    ensures forall i ::
        0 <= i < j ==> StartOf(i) in FirstNodes(n, j) && FirstNodes(n, j)[StartOf(i)] == EndOf(i, n) - StartOf(i)
    ensures forall s :: s in FirstNodes(n, j) ==> exists i :: 0 <= i < j && StartOf(i) == s
  {
    if j > 0 {
      FirstNodesAt(n, j - 1);
      forall s | s in FirstNodes(n, j) ensures exists i :: 0 <= i < j && StartOf(i) == s {
        if s == StartOf(j - 1) {
          assert 0 <= j - 1 < j;
        } else {
          var i :| 0 <= i < j - 1 && StartOf(i) == s;
        }
      }
    }
  }

  /** The place of a node of a fresh trunk. */
  lemma FirstPlace(n: int, s: int) returns (i: int)
    requires n >= 0 && s in FirstNodes(n, BlocksOf(n) + 1)
    ensures 0 <= i <= BlocksOf(n) && StartOf(i) == s && FirstNodes(n, BlocksOf(n) + 1)[s] == EndOf(i, n) - StartOf(i)
  {
    FirstNodesAt(n, BlocksOf(n) + 1);
    i :| 0 <= i < BlocksOf(n) + 1 && StartOf(i) == s;
  }

  /** Consecutive nodes meet, and each has at least three slots. */
  lemma FirstSpans(cnt: int, i: int)
    requires Cuttable(cnt) && 0 <= i <= BlocksOf(cnt + MIN_NODE_SIZE)
    ensures var n := cnt + MIN_NODE_SIZE;
            && 1 <= BlocksOf(n) <= BLOCKS && MIN_NODE_SIZE <= EndOf(i, n) - StartOf(i) <= BLK && EndOf(i, n) <= n
            && (if i == BlocksOf(n) then EndOf(i, n) == n else EndOf(i, n) == StartOf(i + 1))
  {
  }

  lemma FirstTiled(cnt: int)
    requires Cuttable(cnt)
    ensures var n := cnt + MIN_NODE_SIZE; Tiled(FirstNodes(n, BlocksOf(n) + 1), n)
  {
    hide Sized, Follows, Preceded, Disjoint, FirstNodes;
    FirstSized(cnt);
    FirstPreceded(cnt);
    FirstDisjoint(cnt);
    FirstSpans(cnt, 0);
    FirstNodesAt(cnt + MIN_NODE_SIZE, BlocksOf(cnt + MIN_NODE_SIZE) + 1);
    assert StartOf(0) == 0;
  }

  lemma FirstSized(cnt: int)
    requires Cuttable(cnt)
    ensures var n := cnt + MIN_NODE_SIZE; var c := FirstNodes(n, BlocksOf(n) + 1); Sized(c, n) && Follows(c, n)
  {
    var n := cnt + MIN_NODE_SIZE;
    var c := FirstNodes(n, BlocksOf(n) + 1);
    hide FirstNodes, Cuttable, BlocksOf, EndOf;
    forall s | s in c
      ensures 0 <= s && MIN_NODE_SIZE <= c[s] <= BLK && s + c[s] <= n && (s + c[s] == n || s + c[s] in c)
    {
      var i := FirstPlace(n, s);
      FirstSpans(cnt, i);
      if i != BlocksOf(n) { FirstIn(n, i + 1); }
    }
  }

  lemma FirstIn(n: int, i: int)
    requires n >= 0 && 0 <= i <= BlocksOf(n)
    ensures StartOf(i) in FirstNodes(n, BlocksOf(n) + 1)
      && FirstNodes(n, BlocksOf(n) + 1)[StartOf(i)] == EndOf(i, n) - StartOf(i)
  {
    FirstNodesAt(n, BlocksOf(n) + 1);
  }

  lemma FirstPreceded(cnt: int)
    requires Cuttable(cnt)
    ensures var n := cnt + MIN_NODE_SIZE; Preceded(FirstNodes(n, BlocksOf(n) + 1))
  {
    var n := cnt + MIN_NODE_SIZE;
    var c := FirstNodes(n, BlocksOf(n) + 1);
    assert StartOf(0) == 0;
    hide FirstNodes, Cuttable, BlocksOf, EndOf, StartOf, Preceded;
    forall s | s in c && s != 0 ensures exists p :: Meets(c, p, s) {
      var i := FirstPlace(n, s);
      FirstSpans(cnt, i - 1);
      FirstIn(n, i - 1);
      assert Meets(c, StartOf(i - 1), s);
    }
    PrecededOf(c);
  }

  lemma FirstDisjoint(cnt: int)
    requires Cuttable(cnt)
    ensures var n := cnt + MIN_NODE_SIZE; Disjoint(FirstNodes(n, BlocksOf(n) + 1))
  {
    var n := cnt + MIN_NODE_SIZE;
    var c := FirstNodes(n, BlocksOf(n) + 1);
    hide FirstNodes, Cuttable, BlocksOf;
    forall s, t | s in c && t in c && s < t ensures s + c[s] <= t {
      var i := FirstPlace(n, s);
      var j := FirstPlace(n, t);
      FirstSpans(cnt, i);
      StartsRise(i, j);
    }
  }

  lemma StartsRise(i: int, j: int)
    requires 0 <= i && 0 <= j
    ensures StartOf(i) < StartOf(j) <==> i < j
    ensures i < j ==> StartOf(i + 1) <= StartOf(j)
  {
  }

  lemma FirstListed(cnt: int)
    requires Cuttable(cnt)
    ensures var n := cnt + MIN_NODE_SIZE; Listed(FirstNodes(n, BlocksOf(n) + 1), FirstRing(n))
  {
    var n := cnt + MIN_NODE_SIZE;
    var r := FirstRing(n);
    hide FirstNodes;
    forall k | 0 <= k < |r| ensures r[k] in FirstNodes(n, BlocksOf(n) + 1) { FirstIn(n, k); }
    forall j, k | 0 <= j < k < |r| ensures r[j] != r[k] { StartsRise(j, k); }
  }

  /** The free slots of the first `k` places. */
  lemma {:induction false} FirstSlotsTo(cnt: int, k: int)
    requires Cuttable(cnt) && 1 <= k <= BlocksOf(cnt + MIN_NODE_SIZE) + 1
    ensures var n := cnt + MIN_NODE_SIZE;
            FreeSlots(FirstNodes(n, BlocksOf(n) + 1), FirstRing(n)[..k]) == EndOf(k - 1, n) - MIN_NODE_SIZE
  {
    var n := cnt + MIN_NODE_SIZE;
    var r := FirstRing(n);
    hide FirstNodes;
    FirstSpans(cnt, k - 1);
    if k > 1 {
      assert r[..k][..k - 1] == r[..k - 1];
      FirstSlotsTo(cnt, k - 1);
      FirstIn(n, k - 1);
      FirstSpans(cnt, k - 2);
    }
  }

  /** All slots but the head's are free. */
  lemma FirstSlots(cnt: int)
    requires Cuttable(cnt)
    ensures var n := cnt + MIN_NODE_SIZE; FreeSlots(FirstNodes(n, BlocksOf(n) + 1), FirstRing(n)) == cnt
  {
    var n := cnt + MIN_NODE_SIZE;
    var r := FirstRing(n);
    FirstSpans(cnt, BlocksOf(n));
    FirstSlotsTo(cnt, |r|);
    assert r[..|r|] == r;
  }

  // ---- writing a fresh trunk ----

  /** Nodes up to the place `j` are written; the last one leads to itself. */
  ghost predicate Laid(mem: Memory, n: int, j: int) {
    && |mem| == n
    && (forall i :: 0 <= i <= j ==> FreeAt(mem, StartOf(i), EndOf(i, n) - StartOf(i)))
    && (forall i :: 0 <= i <= j ==>
           0 <= StartOf(i) && StartOf(i) + 1 < n && NextFnode(mem, StartOf(i)) == StartOf(if i < j then i + 1 else i))
    && (forall i :: 1 <= i <= j ==> StartOf(i) + 1 < n && PrevFnode(mem, StartOf(i)) == StartOf(i - 1))
  }

  lemma LaidAt(mem: Memory, n: int, j: int, i: int)
    requires Laid(mem, n, j) && 0 <= i <= j
    ensures |mem| == n && FreeAt(mem, StartOf(i), EndOf(i, n) - StartOf(i)) && 0 <= StartOf(i) && StartOf(i) + 1 < n
    ensures NextFnode(mem, StartOf(i)) == StartOf(if i < j then i + 1 else i)
    ensures i > 0 ==> PrevFnode(mem, StartOf(i)) == StartOf(i - 1)
  {
  }

  /** The next block's node is written, and the last one leads to it. */
  lemma LaidMore(mem: Memory, m1: Memory, m2: Memory, cnt: int, j: int)
    requires Cuttable(cnt) && 1 <= j < BlocksOf(cnt + MIN_NODE_SIZE) && Laid(mem, cnt + MIN_NODE_SIZE, j)
    requires var n := cnt + MIN_NODE_SIZE; var q := StartOf(j + 1);
             && Within(mem, m1, q, EndOf(j + 1, n)) && FreeAt(m1, q, EndOf(j + 1, n) - q) && Links(m1, q, q, StartOf(j))
             && NextWrite(m1, m2, StartOf(j), q)
    ensures Laid(m2, cnt + MIN_NODE_SIZE, j + 1)
  {
    var n, q, p := cnt + MIN_NODE_SIZE, StartOf(j + 1), StartOf(j);
    hide Laid, Cuttable, BlocksOf, FreeAt, NextWrite, NextFnode, PrevFnode, Within;
    FirstSpans(cnt, j + 1);
    FirstSpans(cnt, j);
    LaidAt(mem, n, j, j);
    SameSize(mem, m1, m2, q, EndOf(j + 1, n), p, q);
    forall i | 0 <= i <= j + 1
      ensures FreeAt(m2, StartOf(i), EndOf(i, n) - StartOf(i)) && 0 <= StartOf(i) && StartOf(i) + 1 < n
      ensures NextFnode(m2, StartOf(i)) == StartOf(if i < j + 1 then i + 1 else i)
      ensures i > 0 ==> PrevFnode(m2, StartOf(i)) == StartOf(i - 1)
    {
      if i <= j {
        LaidAt(mem, n, j, i);
        FirstSpans(cnt, i);
        if i < j { StartsRise(i, j); }
        LaidKept(mem, m1, m2, StartOf(i), EndOf(i, n) - StartOf(i), p, q, q, EndOf(j + 1, n));
      } else {
        LaidKept(m1, m1, m2, q, EndOf(i, n) - q, p, q, 0, 0);
      }
    }
    LaidOf(m2, n, j + 1);
  }

  lemma SameSize(mem: Memory, m1: Memory, m2: Memory, lo: int, hi: int, p: int, next: int)
    requires Within(mem, m1, lo, hi) && NextWrite(m1, m2, p, next)
    ensures |mem| == |m1| == |m2|
  {
  }

  /** A node before the one written keeps head and tail, and its links unless it is the last. */
  lemma LaidKept(mem: Memory, m1: Memory, m2: Memory, s: int, len: int, p: int, next: int, lo: int, hi: int)
    requires FreeAt(mem, s, len) && Within(mem, m1, lo, hi) && (s + len <= lo || hi <= s) && NextWrite(m1, m2, p, next)
    requires (s == p || s + len <= p || p + 2 < s) && s + 1 < |mem| && p + 2 < |mem|
    ensures FreeAt(m2, s, len) && s + 1 < |m2| && PrevFnode(m2, s) == PrevFnode(mem, s)
      && NextFnode(m2, s) == if s == p then next else NextFnode(mem, s)
  {
  }

  lemma LaidOf(mem: Memory, n: int, j: int)
    requires |mem| == n
    requires forall i ::
        0 <= i <= j ==> FreeAt(mem, StartOf(i), EndOf(i, n) - StartOf(i)) && 0 <= StartOf(i) && StartOf(i) + 1 < n
    requires forall i :: 0 <= i <= j ==>
        0 <= StartOf(i) && StartOf(i) + 1 < n && NextFnode(mem, StartOf(i)) == StartOf(if i < j then i + 1 else i)
    requires forall i ::
        1 <= i <= j ==> 0 <= StartOf(i) && StartOf(i) + 1 < n && PrevFnode(mem, StartOf(i)) == StartOf(i - 1)
    ensures Laid(mem, n, j)
  {
  }

  /** The head and the first node, before any other block. */
  lemma LaidFirst(mem: Memory, cnt: int)
    requires Cuttable(cnt) && |mem| == cnt + MIN_NODE_SIZE
    requires FreeAt(mem, 0, MIN_NODE_SIZE) && NextFnode(mem, 0) == MIN_NODE_SIZE
    requires FreeAt(mem, MIN_NODE_SIZE, EndOf(1, |mem|) - MIN_NODE_SIZE) && Links(mem, MIN_NODE_SIZE, MIN_NODE_SIZE, 0)
    ensures Laid(mem, cnt + MIN_NODE_SIZE, 1)
  {
  }

  /** The list is closed: the last node leads to the head and the head back to it. */
  lemma LaidDone(mem: Memory, m1: Memory, m2: Memory, cnt: int)
    requires Cuttable(cnt)
    requires var n := cnt + MIN_NODE_SIZE; var q := StartOf(BlocksOf(n));
             Laid(mem, n, BlocksOf(n)) && PrevWrite(mem, m1, 0, q) && NextWrite(m1, m2, q, 0)
    ensures |m2| == cnt + MIN_NODE_SIZE
      && Rep(m2, FirstNodes(cnt + MIN_NODE_SIZE, BlocksOf(cnt + MIN_NODE_SIZE) + 1), FirstRing(cnt + MIN_NODE_SIZE))
  {
    hide Laid, Cuttable, FreeAt, FirstNodes, Tiled, Linked, Stored, NextWrite, PrevWrite, NextFnode, PrevFnode,
      BlocksOf, StartOf, EndOf;
    var n := cnt + MIN_NODE_SIZE;
    var m := BlocksOf(n);
    FirstTiled(cnt);
    FirstListed(cnt);
    FirstSpans(cnt, 0);
    DoneAt(mem, m1, m2, cnt, 0);
    forall s | s in FirstNodes(n, m + 1) ensures s in FirstRing(n) && FreeAt(m2, s, FirstNodes(n, m + 1)[s]) {
      var i := FirstPlace(n, s);
      DoneAt(mem, m1, m2, cnt, i);
      assert FirstRing(n)[i] == s;
    }
    StoredOf(m2, FirstNodes(n, m + 1), FirstRing(n));
    forall k | 0 <= k < |FirstRing(n)|
      ensures Links(m2, FirstRing(n)[k], FirstRing(n)[Suc(k, |FirstRing(n)|)], FirstRing(n)[Pre(k, |FirstRing(n)|)])
    {
      DoneAt(mem, m1, m2, cnt, k);
    }
    LinkedOf(m2, FirstRing(n));
  }

  lemma StoredOf(mem: Memory, nodes: Nodes, ring: seq<int>)
    requires forall s :: s in nodes ==> s in ring && FreeAt(mem, s, nodes[s])
    ensures Stored(mem, nodes, ring)
  {
  }

  /** The node at the place `i` once the list is closed. */
  lemma DoneAt(mem: Memory, m1: Memory, m2: Memory, cnt: int, i: int)
    requires Cuttable(cnt) && 0 <= i <= BlocksOf(cnt + MIN_NODE_SIZE)
    requires var n := cnt + MIN_NODE_SIZE; var q := StartOf(BlocksOf(n));
             Laid(mem, n, BlocksOf(n)) && PrevWrite(mem, m1, 0, q) && NextWrite(m1, m2, q, 0)
    ensures var n := cnt + MIN_NODE_SIZE; var m := BlocksOf(n);
            && |m2| == n && FreeAt(m2, StartOf(i), EndOf(i, n) - StartOf(i))
            && Links(m2, StartOf(i), StartOf(Suc(i, m + 1)), StartOf(Pre(i, m + 1)))
  {
    var n := cnt + MIN_NODE_SIZE;
    var m := BlocksOf(n);
    var q := StartOf(m);
    hide Laid, Cuttable, BlocksOf;
    LaidAt(mem, n, m, i);
    LaidAt(mem, n, m, 0);
    LaidAt(mem, n, m, m);
    FirstSpans(cnt, i);
    FirstSpans(cnt, m);
    if i < m { StartsRise(i, m); }
    if i > 0 { StartsRise(0, i); }
    hide FreeAt;
    DoneKept(mem, m1, m2, StartOf(i), EndOf(i, n) - StartOf(i), q);
    if i == 0 { assert StartOf(0) == 0; }
  }

  lemma DoneKept(mem: Memory, m1: Memory, m2: Memory, s: int, len: int, q: int)
    requires FreeAt(mem, s, len) && PrevWrite(mem, m1, 0, q) && NextWrite(m1, m2, q, 0) && (s == q || s + len <= q)
      && (s == 0 || 2 < s) && 2 < q && s + 1 < |mem|
    ensures |m2| == |mem| && FreeAt(m2, s, len)
    ensures NextFnode(m2, s) == (if s == q then 0 else NextFnode(mem, s))
      && PrevFnode(m2, s) == if s == 0 then q else PrevFnode(mem, s)
  {
  }

  /** What malloc leaves in memory. */
  method Malloc(n: nat) returns (mem: Memory)
    ensures |mem| == n
  {
    mem := *;
    if |mem| != n {
      mem := seq(n, _ => Slot(0, 0));
    }
  }

  function Min(x: int, y: int): int {
    if x < y then x else y
  }

  /** The list head and the first node of a trunk. */
  method InitHead(cnt: int) returns (mem: Memory)
    requires Cuttable(cnt)
    ensures Laid(mem, cnt + MIN_NODE_SIZE, 1)
  {
    mem := Malloc(cnt + MIN_NODE_SIZE);
    mem := mem[0 := WithIdx(mem[0], PnBlkIdx(0, 0))];
    mem := mem[1 := Slot(0, MIN_NODE_SIZE)];
    ghost var m0 := mem;
    mem := SetFnodeLen(mem, 0, MIN_NODE_SIZE);
    assert Links(m0, 0, MIN_NODE_SIZE, 0) && Links(mem, 0, MIN_NODE_SIZE, 0);
    ghost var m1 := mem;
    mem := mem[MIN_NODE_SIZE := WithIdx(mem[MIN_NODE_SIZE], PnBlkIdx(0, 0))];
    mem := mem[MIN_NODE_SIZE + 1 := Slot(0, MIN_NODE_SIZE)];
    ghost var m2 := mem;
    assert Links(m2, MIN_NODE_SIZE, MIN_NODE_SIZE, 0);
    mem := SetFnodeLen(mem, MIN_NODE_SIZE, Min(BLK - MIN_NODE_SIZE, cnt));
    assert mem[0] == m1[0] && mem[1] == m1[1] && mem[2] == m1[2];
    assert EndOf(1, |mem|) == MIN_NODE_SIZE + Min(BLK - MIN_NODE_SIZE, cnt);
    LaidFirst(mem, cnt);
  }

  /** cvsp_init_trunk: one free node for each block, in a circular list through the head. */
  method InitTrunk(cnt: int) returns (mem: Memory)
    requires Cuttable(cnt)
    ensures |mem| == cnt + MIN_NODE_SIZE
    ensures Rep(mem, FirstNodes(cnt + MIN_NODE_SIZE, BlocksOf(cnt + MIN_NODE_SIZE) + 1), FirstRing(cnt + MIN_NODE_SIZE))
  {
    hide Laid, FreeAt, LenWrite, Links, Rep, NextWrite, PrevWrite, FirstNodes;
    mem := InitHead(cnt);
    var remained := 4 * cnt - (4 * BLK - 4 * MIN_NODE_SIZE);
    var prev := MIN_NODE_SIZE;
    ghost var n := cnt + MIN_NODE_SIZE;
    ghost var j := 1;
    FirstSpans(cnt, 1);
    while remained > 0
      invariant 1 <= j <= BlocksOf(n) && remained == 4 * (n - BLK * j) && prev == StartOf(j) && Laid(mem, n, j)
      decreases remained
    {
      mem, prev := InitBlock(mem, cnt, remained, prev, j);
      remained := remained - 4 * BLK;
      j := j + 1;
    }
    assert j == BlocksOf(n);
    FirstSpans(cnt, j);
    LaidAt(mem, n, j, j);
    LaidAt(mem, n, j, 0);
    ghost var m0 := mem;
    SelfLink(mem, prev);
    mem := SetPrev(mem, 0, NextBlkIdx(Idx(mem[prev])), mem[prev + 1].hi);
    ghost var m1 := mem;
    PrevIsLink(m0, m1, 0, prev);
    mem := SetNext(mem, prev, 0, 0);
    LaidDone(m0, m1, mem, cnt);
  }

  lemma SelfLink(mem: Memory, p: int)
    requires 0 <= p && p + 1 < |mem|
    ensures SlotAbsPos(NextBlkIdx(Idx(mem[p])), mem[p + 1].hi) == NextFnode(mem, p)
  {
  }

  /** The node of the next block. */
  method InitBlock(mem0: Memory, cnt: int, remained: int, prev: int, ghost j: int) returns (mem: Memory, fn: int)
    requires Cuttable(cnt) && 1 <= j <= BlocksOf(cnt + MIN_NODE_SIZE)
      && remained == 4 * (cnt + MIN_NODE_SIZE - BLK * j) > 0
    requires prev == StartOf(j) && Laid(mem0, cnt + MIN_NODE_SIZE, j)
    ensures j + 1 <= BlocksOf(cnt + MIN_NODE_SIZE) && fn == StartOf(j + 1) && Laid(mem, cnt + MIN_NODE_SIZE, j + 1)
  {
    hide Laid, FreeAt, LenWrite, Links, NextWrite, PrevWrite, NextFnode, PrevFnode, Idx, NextBlkIdx, PrevBlkIdx,
      SlotAbsPos, Within;
    ghost var n := cnt + MIN_NODE_SIZE;
    mem := mem0;
    assert j + 1 <= BlocksOf(n);
    FirstSpans(cnt, j);
    FirstSpans(cnt, j + 1);
    LaidAt(mem, n, j, j);
    var l := GetFnodeLen(mem, prev, EndOf(j, n) - StartOf(j));
    fn := prev + l;
    var len := Min(BLK, remained / 4);
    assert EndOf(j + 1, n) == fn + len;
    SelfLinks(mem, prev);
    mem := SetFnodeLen(mem, fn, len);
    LenIs(mem0, mem, fn, len);
    LenElse(mem0, mem, fn, len, prev, prev, PrevFnode(mem0, prev));
    LinkParts(mem, prev, prev, PrevFnode(mem0, prev));
    var cur := cnt - remained / 4 + MIN_NODE_SIZE;
    CurPos(cur);
    mem := PutLinks(mem, fn, PnBlkIdx(NextBlkIdx(Idx(mem[prev])), cur / BLK), mem[prev + 1].hi, cur % BLK, mem0, len,
          fn, prev);
    ghost var m1 := mem;
    mem := SetNext(mem, prev, cur / BLK, cur % BLK);
    LaidMore(mem0, m1, mem, cnt, j);
  }

  lemma SelfLinks(mem: Memory, p: int)
    requires 0 <= p && p + 1 < |mem|
    ensures Links(mem, p, NextFnode(mem, p), PrevFnode(mem, p))
  {
  }

  lemma CurPos(cur: int)
    requires 0 <= cur < TRUNK
    ensures 0 <= cur / BLK < 16 && SlotAbsPos(cur / BLK, cur % BLK) == cur
  {
  }

  // ---- how many slots, and which trunks ----

  /** A total that full trunks and a last one make up. */
  predicate WellCut(total: int) {
    total > 0 && (total % USABLE == 0 || Cuttable(total % USABLE))
  }

  lemma WellCutMore(a: nat, x: int)
    requires x > 0
    ensures WellCut(a * USABLE + x) <==> WellCut(x)
  {
    assert (a * USABLE + x) % USABLE == x % USABLE;
  }

  /** What a single trunk, or an exact multiple of a trunk's slots, is adjusted to. */
  lemma AdjustOne(n: int, r: int)
    requires 0 < n < 0x2000_0000 && (n + MIN_NODE_SIZE < TRUNK || (n + MIN_NODE_SIZE) % TRUNK == 0)
    requires r == if n < MIN_NODE_SIZE then MIN_NODE_SIZE
                  else if (n + MIN_NODE_SIZE) % BLK in {1, 2} then n + MIN_NODE_SIZE - (n + MIN_NODE_SIZE) % BLK else n
    ensures n <= r <= n + 2 && WellCut(r) && forall m :: n <= m < r ==> !WellCut(m)
  {
    if n + MIN_NODE_SIZE < TRUNK {
      AdjustSmall(n, r);
    } else {
      ManyCut(n, (n + MIN_NODE_SIZE) / TRUNK);
    }
  }

  lemma AdjustSmall(n: int, r: int)
    requires 0 < n && n + MIN_NODE_SIZE < TRUNK
    requires r == if n < MIN_NODE_SIZE then MIN_NODE_SIZE
                  else if (n + MIN_NODE_SIZE) % BLK in {1, 2} then n + MIN_NODE_SIZE - (n + MIN_NODE_SIZE) % BLK else n
    ensures n <= r <= n + 2 && WellCut(r) && forall m :: n <= m < r ==> !WellCut(m)
  {
    hide WellCut;
    assert r + MIN_NODE_SIZE <= TRUNK;
    SmallCut(r);
    forall m | n <= m < r ensures !WellCut(m) { SmallCut(m); }
  }

  lemma SmallCut(m: int)
    requires 0 < m && m + MIN_NODE_SIZE <= TRUNK
    ensures WellCut(m) <==> m == USABLE || Cuttable(m)
  {
    if m < USABLE { assert m % USABLE == m; }
  }

  /** `k` whole trunks, heads included, leave three slots a trunk for the last one. */
  lemma ManyCut(n: int, k: int)
    requires n + MIN_NODE_SIZE == k * TRUNK && 1 <= k <= 0x200
    ensures WellCut(n) && (n + MIN_NODE_SIZE) % BLK == 0
  {
    var x := MIN_NODE_SIZE * (k - 1);
    assert n == k * USABLE + x;
    assert n % USABLE == x;
    assert (x + MIN_NODE_SIZE) % BLK == x + MIN_NODE_SIZE;
    assert n + MIN_NODE_SIZE == (16 * k) * BLK;
  }

  /** slots_num_adjust: the least total from `slotsNum` on that can be cut into trunks. */
  method SlotsNumAdjust(slotsNum: int) returns (r: int)
    requires 0 < slotsNum < 0x2000_0000
    ensures slotsNum <= r <= slotsNum + 2 && WellCut(r)
    ensures forall m :: slotsNum <= m < r ==> !WellCut(m)
    decreases slotsNum
  {
    var st, nt := slotsNum, 0;
    nt := nt + 1;
    st := st + MIN_NODE_SIZE;
    while st / TRUNK != 0 && st % TRUNK != 0
      invariant 1 <= nt && st == slotsNum + MIN_NODE_SIZE - (nt - 1) * USABLE && MIN_NODE_SIZE < st
      decreases st
    {
      nt := nt + 1;
      st := st - TRUNK;
      st := st + MIN_NODE_SIZE;
    }
    if nt > 1 {
      var last := slotsNum - (nt - 1) * (TRUNK - MIN_NODE_SIZE);
      var l := SlotsNumAdjust(last);
      WellCutMore(nt - 1, l);
      forall m | slotsNum <= m < slotsNum - last + l ensures !WellCut(m) {
        WellCutMore(nt - 1, m - (nt - 1) * USABLE);
      }
      return slotsNum - last + l;
    }
    r := slotsNum;
    if slotsNum < MIN_NODE_SIZE && slotsNum % MIN_NODE_SIZE != 0 {
      r := slotsNum + (MIN_NODE_SIZE - slotsNum % MIN_NODE_SIZE);
      AdjustOne(slotsNum, r);
      return;
    }
    var remain := (slotsNum + MIN_NODE_SIZE) % BLK;
    if remain < MIN_NODE_SIZE && remain % MIN_NODE_SIZE != 0 {
      r := slotsNum + (MIN_NODE_SIZE - remain % MIN_NODE_SIZE);
    }
    AdjustOne(slotsNum, r);
  }

  /** A trunk as cvsp_init_trunk leaves it. */
  ghost predicate Fresh(mem: Memory, cnt: int) {
    && Cuttable(cnt) && |mem| == cnt + MIN_NODE_SIZE
    && Rep(mem, FirstNodes(cnt + MIN_NODE_SIZE, BlocksOf(cnt + MIN_NODE_SIZE) + 1), FirstRing(cnt + MIN_NODE_SIZE))
  }

  /** The trunks of a pool: all but the last are full, and the last has room for a node in its last block. */
  method InitPool(slotsNum: int) returns (total: int, trunks: seq<Memory>)
    requires 0 < slotsNum < 0x2000_0000
    ensures slotsNum <= total <= slotsNum + 2 && |trunks| == (total + USABLE - 1) / USABLE
    ensures WellCut(total) && forall m :: slotsNum <= m < total ==> !WellCut(m)
    ensures forall i :: 0 <= i < |trunks| ==> Fresh(trunks[i], Min(USABLE, total - i * USABLE))
  {
    hide Fresh, Rep, FirstNodes, BlocksOf, Cuttable, WellCut;
    total := SlotsNumAdjust(slotsNum);
    MostSlots(slotsNum, total);
    trunks := [];
    var tremain := total;
    while true
      invariant tremain == total - |trunks| * USABLE && tremain > 0
      invariant forall i :: 0 <= i < |trunks| ==> Fresh(trunks[i], Min(USABLE, total - i * USABLE))
      decreases tremain
    {
      assert tremain * 4 < 0x8000_0000;
      var tsize := Min(4 * TRUNK - 4 * MIN_NODE_SIZE, tremain * 4);
      LastCut(total, |trunks|);
      var t := InitTrunk(tsize / 4);
      FreshOf(t, tsize / 4);
      trunks := trunks + [t];
      tremain := tremain - tsize / 4;
      if tremain <= 0 {
        break;
      }
    }
  }

  lemma FreshOf(mem: Memory, cnt: int)
    requires Cuttable(cnt) && |mem| == cnt + MIN_NODE_SIZE
    requires Rep(mem, FirstNodes(cnt + MIN_NODE_SIZE, BlocksOf(cnt + MIN_NODE_SIZE) + 1),
          FirstRing(cnt + MIN_NODE_SIZE))
    ensures Fresh(mem, cnt)
  {
  }

  /** The adjusted number of slots, in bytes, is still an int. */
  lemma MostSlots(n: int, r: int)
    requires 0 < n < 0x2000_0000 && forall m :: n <= m < r ==> !WellCut(m)
    ensures r < 0x2000_0000
  {
    assert 0x1fff_ffff % USABLE == 1535;
    assert WellCut(0x1fff_ffff);
  }

  lemma LastCut(total: int, i: nat)
    requires WellCut(total) && total - i * USABLE > 0
    ensures Cuttable(Min(USABLE, total - i * USABLE))
  {
    var x := total - i * USABLE;
    assert total % USABLE == x % USABLE;
    if x < USABLE { assert x % USABLE == x; }
  }
}
