/** The compact pool over one trunk of at most one block: allocation and release. */
module CompactPool {
  import opened CompactRing
  import Init = CompactInit

  const NULL := -1
  const TWO_32 := 0x1_0000_0000

  type U32 = x: int | 0 <= x < TWO_32

  /** The slots a request takes: one for the header, at least three in all. The sum is one of unsigned ints. */
  function NeedSlots(size: U32): (r: int) {
    var n := ((size + 7) % TWO_32) / 4;
    if n < MIN_NODE_SIZE then MIN_NODE_SIZE else n
  }

  /** A node has room for what was asked for, unless the sum wraps round. */
  lemma NeedIsEnough(size: U32)
    ensures 4 * (NeedSlots(size) - 1) >= size <==> size < TWO_32 - 7
  {
  }

  /** The least node with room for a header and `size` bytes. */
  predicate Wanted(size: U32, s: int) {
    s >= MIN_NODE_SIZE && 4 * (s - 1) >= size && (s > MIN_NODE_SIZE ==> 4 * (s - 2) < size)
  }

  /** A request takes no slot more than that. */
  lemma NeedIsWanted(size: U32, s: int)
    requires size < TWO_32 - 7
    ensures Wanted(size, s) <==> s == NeedSlots(size)
  {
  }

  /** What an allocated node has become. */
  lemma NodeAfter(nodes: Nodes, s: int, need: int)
    requires s in nodes && Fits(nodes[s], need) && need > 0
    ensures s in AllocNodes(nodes, s, need) && AllocNodes(nodes, s, need)[s] == need
  {
  }

  /** A free node is used when it fits exactly or leaves a node over. */
  predicate Fits(len: int, need: int) {
    len == need || len >= need + MIN_NODE_SIZE
  }

  /** The first place of the list whose node fits. */
  ghost predicate FirstFit(nodes: Nodes, ring: seq<int>, need: int, k: int) {
    && 0 < k < |ring| && ring[k] in nodes && Fits(nodes[ring[k]], need)
    && forall j :: 0 < j < k ==> ring[j] in nodes && !Fits(nodes[ring[j]], need)
  }

  ghost predicate NoFit(nodes: Nodes, ring: seq<int>, need: int) {
    forall j :: 0 < j < |ring| ==> ring[j] in nodes && !Fits(nodes[ring[j]], need)
  }

  function AllocNodes(nodes: Nodes, s: int, need: int): Nodes
    requires s in nodes
  {
    if nodes[s] == need then nodes else Cut(nodes, s, need)
  }

  function AllocRing(nodes: Nodes, ring: seq<int>, k: int, need: int): seq<int>
    requires 0 <= k < |ring| && ring[k] in nodes
  {
    if nodes[ring[k]] == need then Without(ring, k) else ring[k := ring[k] + need]
  }

  // ---- facts about a represented trunk ----

  lemma RepNode(mem: Memory, nodes: Nodes, ring: seq<int>, s: int)
    requires Rep(mem, nodes, ring) && s in nodes
    ensures 0 <= s && MIN_NODE_SIZE <= nodes[s] <= BLK && s + nodes[s] <= |mem|
      && (s + nodes[s] == |mem| || s + nodes[s] in nodes)
    ensures if s in ring then FreeAt(mem, s, nodes[s]) else BusyAt(mem, s, nodes[s])
    ensures s != 0 ==> s >= MIN_NODE_SIZE
  {
    if s != 0 { NodesApart(nodes, |mem|, 0, s); }
  }

  lemma RepRing(mem: Memory, nodes: Nodes, ring: seq<int>, k: int)
    requires Rep(mem, nodes, ring) && 0 <= k < |ring|
    ensures ring[k] in nodes && ring[k] in ring && Links(mem, ring[k], ring[Suc(k, |ring|)], ring[Pre(k, |ring|)])
    ensures ring[Suc(k, |ring|)] in nodes && ring[Pre(k, |ring|)] in nodes && (ring[k] == 0 <==> k == 0)
  {
    LinksAt(mem, ring, k);
  }

  lemma SlotsLow(nodes: Nodes, n: int, ring: seq<int>)
    requires Tiled(nodes, n) && Listed(nodes, ring)
    ensures FreeSlots(nodes, ring) >= MIN_NODE_SIZE * (|ring| - 1)
  {
    hide Tiled;
    if |ring| > 1 {
      NodeFits(nodes, n, ring[|ring| - 1]);
      SlotsLow(nodes, n, ring[..|ring| - 1]);
    }
  }

  /** Nothing is free when the list holds its head only. */
  lemma FullTrunk(mem: Memory, nodes: Nodes, ring: seq<int>, need: int)
    requires Rep(mem, nodes, ring) && (FreeSlots(nodes, ring) == 0 || need > |mem| - MIN_NODE_SIZE)
    ensures NoFit(nodes, ring, need)
  {
    hide Rep, Tiled, FreeSlots;
    RepTiled(mem, nodes, ring);
    if FreeSlots(nodes, ring) == 0 { SlotsLow(nodes, |mem|, ring); }
    forall j | 0 < j < |ring| ensures ring[j] in nodes && !Fits(nodes[ring[j]], need) {
      RepRing(mem, nodes, ring, j);
      RepNode(mem, nodes, ring, ring[j]);
    }
  }

  // ---- what allocation does to the memory ----

  /**
   * The writes that take `need` slots off the front of the free node `s` of `len` slots, between `p` and `q` in the
   * list.
   */
  ghost predicate SplitWrites(mem: Memory, m1: Memory, m2: Memory, m3: Memory, mem': Memory, s: int, p: int, q: int,
      need: int, len: int) {
    && 0 <= s < |mem| && Within(mem, m1, s + 1, s + len) && FreeAt(m1, s + need, len - need)
       && Links(m1, s + need, q, p)
    && NextWrite(m1, m2, p, s + need) && PrevWrite(m2, m3, q, s + need)
    && |m3| == |mem| && 0 < need <= BLK && mem' == m3[s := Slot(BUSY_GUARD0, need - 1)]
  }

  /** The place `k` of the list: a node between two others. */
  ghost predicate Placed(nodes: Nodes, ring: seq<int>, k: int, s: int, p: int, q: int) {
    0 < k < |ring| && s == ring[k] && p == ring[k - 1] && q == ring[Suc(k, |ring|)] && s in nodes && p in nodes
    && q in nodes && s != 0 && s != p && s != q
  }

  lemma PlacedAt(mem: Memory, nodes: Nodes, ring: seq<int>, k: int)
    requires Rep(mem, nodes, ring) && 0 < k < |ring|
    ensures Placed(nodes, ring, k, ring[k], ring[k - 1], ring[Suc(k, |ring|)])
      && Links(mem, ring[k], ring[Suc(k, |ring|)], ring[k - 1])
  {
    RepRing(mem, nodes, ring, k);
  }

  lemma SplitStored(mem: Memory, m1: Memory, m2: Memory, m3: Memory, mem': Memory, nodes: Nodes, ring: seq<int>, k: int,
      s: int, p: int, q: int, need: int)
    requires Tiled(nodes, |mem|) && StoredBut(mem, nodes, ring, {s}) && Placed(nodes, ring, k, s, p, q)
    requires SplitWrites(mem, m1, m2, m3, mem', s, p, q, need, nodes[s]) && need >= MIN_NODE_SIZE
    ensures StoredBut(mem', nodes, ring, {s}) && ContentKept(mem, mem', nodes, ring, {s})
    ensures |mem'| == |mem| && FreeAt(mem', s + need, nodes[s] - need) && BusyAt(mem', s, need)
  {
    var but := {s};
    NodeFits(nodes, |mem|, s);
    NodeFits(nodes, |mem|, p);
    NodesApart(nodes, |mem|, s, p);
    NodesApart(nodes, |mem|, s, q);
    hide Tiled, StoredBut, ContentKept, PrevFnode, NextFnode, Pad;
    NodeWriteStored(mem, m1, nodes, ring, but, s);
    LinkWriteStored(m1, m2, nodes, ring, but, p);
    LinkWriteStored(m2, m3, nodes, ring, but, q);
    NodeWriteStored(m3, mem', nodes, ring, but, s);
    ContentOn(mem, m1, m2, nodes, ring, but);
    ContentOn(mem, m2, m3, nodes, ring, but);
    ContentOn(mem, m3, mem', nodes, ring, but);
  }

  lemma NodeFits(nodes: Nodes, n: int, s: int)
    requires Tiled(nodes, n) && s in nodes
    ensures 0 <= s && MIN_NODE_SIZE <= nodes[s] <= BLK && s + nodes[s] <= n
  {
  }

  /** The links of another node `x`, seen through writes inside `s`, two link writes, and writes inside `s` again. */
  lemma RelinkedOver(mem: Memory, m1: Memory, m2: Memory, m3: Memory, mem': Memory, nodes: Nodes, s: int, x: int,
      p: int, q: int, next: int, prev: int)
    requires Tiled(nodes, |mem|) && s in nodes && x in nodes && p in nodes && q in nodes && x != s
    requires Within(mem, m1, s, s + nodes[s]) && NextWrite(m1, m2, p, next) && PrevWrite(m2, m3, q, prev)
      && Within(m3, mem', s, s + nodes[s])
    ensures Relinked(mem, mem', x, p, q, next, prev)
  {
    NodesApart(nodes, |mem|, x, s);
    if x != p { NodesApart(nodes, |mem|, x, p); }
    if x != q { NodesApart(nodes, |mem|, x, q); }
    hide Tiled;
    RelinkedBoth(m1, m2, m3, x, p, q, next, prev);
    hide NextWrite, PrevWrite, LinkWrite, Pad;
    assert |m1| == |mem| && m1[x] == mem[x] && m1[x + 1] == mem[x + 1];
    assert |mem'| == |m3| && mem'[x] == m3[x] && mem'[x + 1] == m3[x + 1];
    hide NextFnode, PrevFnode, Within;
    forall a, b | Links(mem, x, a, b) ensures Links(mem', x, if x == p then next else a, if x == q then prev else b) {
      LinksAlike(mem, m1, x, a, b);
      LinksAlike(m3, mem', x, if x == p then next else a, if x == q then prev else b);
    }
  }

  lemma InInsteadAt(ring: seq<int>, k: int, t: int, x: int)
    requires 0 <= k < |ring| && forall i, j :: 0 <= i < j < |ring| ==> ring[i] != ring[j]
    ensures x in ring[k := t] <==> x == t || (x in ring && x != ring[k])
  {
    var r := ring[k := t];
    assert r[k] == t;
    if x in ring && x != ring[k] {
      var j :| 0 <= j < |ring| && ring[j] == x;
      assert r[j] == x;
    }
  }

  /** Taking the front of a node. */
  lemma SplitRep(mem: Memory, m1: Memory, m2: Memory, m3: Memory, mem': Memory, nodes: Nodes, ring: seq<int>, k: int,
      s: int, p: int, q: int, need: int)
    requires Rep(mem, nodes, ring) && Placed(nodes, ring, k, s, p, q) && need >= MIN_NODE_SIZE
      && nodes[s] >= need + MIN_NODE_SIZE
    requires SplitWrites(mem, m1, m2, m3, mem', s, p, q, need, nodes[s])
    ensures Rep(mem', Cut(nodes, s, need), ring[k := s + need]) && ContentKept(mem, mem', nodes, ring, {s})
  {
    hide Sized, Follows, Preceded, Disjoint, Linked, SplitWrites, ContentKept, FreeAt, BusyAt;
    var t := s + need;
    assert StoredBut(mem, nodes, ring, {s});
    assert Listed(nodes, ring);
    SplitStored(mem, m1, m2, m3, mem', nodes, ring, k, s, p, q, need);
    CutTiled(nodes, |mem|, s, need);
    SplitLinked(mem, m1, m2, m3, mem', nodes, ring, k, s, p, q, need);
    assert Listed(Cut(nodes, s, need), ring[k := t]);
    forall x | x in Cut(nodes, s, need)
      ensures if x in ring[k := t] then FreeAt(mem', x, Cut(nodes, s, need)[x])
          else BusyAt(mem', x, Cut(nodes, s, need)[x])
    {
      InInsteadAt(ring, k, t, x);
      if x != s && x != t {
        assert x in nodes && Cut(nodes, s, need)[x] == nodes[x];
      }
    }
  }

  lemma SplitLinked(mem: Memory, m1: Memory, m2: Memory, m3: Memory, mem': Memory, nodes: Nodes, ring: seq<int>, k: int,
      s: int, p: int, q: int, need: int)
    requires Tiled(nodes, |mem|) && Listed(nodes, ring) && Linked(mem, ring) && Placed(nodes, ring, k, s, p, q)
      && need >= MIN_NODE_SIZE && nodes[s] >= need + MIN_NODE_SIZE
    requires SplitWrites(mem, m1, m2, m3, mem', s, p, q, need, nodes[s]) && s + need !in nodes
    ensures Linked(mem', ring[k := s + need])
  {
    hide Tiled, Linked, Links, NextFnode, PrevFnode, FreeAt;
    var t := s + need;
    NodeFits(nodes, |mem|, s);
    NodesApart(nodes, |mem|, s, p);
    NodesApart(nodes, |mem|, s, q);
    assert Within(m3, mem', s, s + nodes[s]);
    LinksThrough(m1, m2, t, q, p, p);
    LinksThrough(m2, m3, t, q, p, q);
    LinksAlike(m3, mem', t, q, p);
    forall j {:trigger ring[j]} | 0 <= j < |ring| && j != k ensures Relinked(mem, mem', ring[j], p, q, t, t) {
      hide Within;
      RelinkedOver(mem, m1, m2, m3, mem', nodes, s, ring[j], p, q, t, t);
    }
    LinkedInstead(mem, mem', ring, k, t);
  }

  /** A whole free node goes to its owner. */
  ghost predicate TakeWrites(mem: Memory, m1: Memory, m2: Memory, mem': Memory, s: int, p: int, q: int, len: int) {
    && NextWrite(mem, m1, p, q) && PrevWrite(m1, m2, q, p)
    && 0 <= s < |mem| == |m2| && 0 < len <= BLK && mem' == m2[s := Slot(BUSY_GUARD0, len - 1)]
  }

  lemma TakeRep(mem: Memory, m1: Memory, m2: Memory, mem': Memory, nodes: Nodes, ring: seq<int>, k: int, s: int, p: int,
      q: int)
    requires Rep(mem, nodes, ring) && Placed(nodes, ring, k, s, p, q)
    requires TakeWrites(mem, m1, m2, mem', s, p, q, nodes[s])
    ensures Rep(mem', nodes, Without(ring, k)) && ContentKept(mem, mem', nodes, ring, {s})
  {
    hide Sized, Follows, Preceded, Disjoint, Linked, TakeWrites, ContentKept, FreeAt, BusyAt;
    assert StoredBut(mem, nodes, ring, {s});
    assert Listed(nodes, ring);
    TakeStored(mem, m1, m2, mem', nodes, ring, k, s, p, q);
    TakeLinked(mem, m1, m2, mem', nodes, ring, k, s, p, q);
    WithoutIn(ring, k);
    assert Listed(nodes, Without(ring, k));
    forall x | x in nodes
      ensures if x in Without(ring, k) then FreeAt(mem', x, nodes[x]) else BusyAt(mem', x, nodes[x])
    {
      assert x in Without(ring, k) <==> x in ring && x != s;
    }
  }

  lemma TakeStored(mem: Memory, m1: Memory, m2: Memory, mem': Memory, nodes: Nodes, ring: seq<int>, k: int, s: int,
      p: int, q: int)
    requires Tiled(nodes, |mem|) && StoredBut(mem, nodes, ring, {s}) && Placed(nodes, ring, k, s, p, q)
    requires TakeWrites(mem, m1, m2, mem', s, p, q, nodes[s])
    ensures StoredBut(mem', nodes, ring, {s}) && ContentKept(mem, mem', nodes, ring, {s})
    ensures |mem'| == |mem| && BusyAt(mem', s, nodes[s])
  {
    var but := {s};
    NodeFits(nodes, |mem|, s);
    hide Tiled, StoredBut, ContentKept, PrevFnode, NextFnode, Pad;
    LinkWriteStored(mem, m1, nodes, ring, but, p);
    LinkWriteStored(m1, m2, nodes, ring, but, q);
    NodeWriteStored(m2, mem', nodes, ring, but, s);
    ContentOn(mem, m1, m2, nodes, ring, but);
    ContentOn(mem, m2, mem', nodes, ring, but);
  }

  lemma TakeLinked(mem: Memory, m1: Memory, m2: Memory, mem': Memory, nodes: Nodes, ring: seq<int>, k: int, s: int,
      p: int, q: int)
    requires Tiled(nodes, |mem|) && Listed(nodes, ring) && Linked(mem, ring) && Placed(nodes, ring, k, s, p, q)
    requires TakeWrites(mem, m1, m2, mem', s, p, q, nodes[s])
    ensures Linked(mem', Without(ring, k))
  {
    hide Tiled, Linked, Links, NextFnode, PrevFnode;
    NodeFits(nodes, |mem|, s);
    assert Within(mem, mem, s, s + nodes[s]) && Within(m2, mem', s, s + nodes[s]);
    forall j {:trigger ring[j]} | 0 <= j < |ring| && j != k ensures Relinked(mem, mem', ring[j], p, q, q, p) {
      hide Within;
      RelinkedOver(mem, mem, m1, m2, mem', nodes, s, ring[j], p, q, q, p);
    }
    LinkedWithout(mem, mem', ring, k);
  }

  // ---- what releasing does to the memory ----

  /** A node from `s` on gets `len` slots and links, and `p` and `q` lead to it. */
  ghost predicate FreeWrites(mem: Memory, m1: Memory, m2: Memory, mem': Memory, s: int, p: int, q: int, len: int) {
    && Within(mem, m1, s, s + len) && FreeAt(m1, s, len) && Links(m1, s, q, p)
    && NextWrite(m1, m2, p, s) && PrevWrite(m2, mem', q, s)
  }

  lemma FreeStored(mem: Memory, m1: Memory, m2: Memory, mem': Memory, nodes: Nodes, ring: seq<int>, s: int, p: int,
      q: int)
    requires Tiled(nodes, |mem|) && StoredBut(mem, nodes, ring, {s}) && s in nodes && p in nodes && q in nodes
      && p in ring && q in ring && s != p && s != q
    requires FreeWrites(mem, m1, m2, mem', s, p, q, nodes[s])
    ensures StoredBut(mem', nodes, ring, {s}) && ContentKept(mem, mem', nodes, ring, {s})
    ensures |mem'| == |mem| && FreeAt(mem', s, nodes[s]) && Links(mem', s, q, p)
  {
    var but := {s};
    NodeFits(nodes, |mem|, s);
    NodesApart(nodes, |mem|, s, p);
    NodesApart(nodes, |mem|, s, q);
    hide Tiled, StoredBut, ContentKept, Links, PrevFnode, NextFnode, Pad;
    LinksThrough(m1, m2, s, q, p, p);
    LinksThrough(m2, mem', s, q, p, q);
    NodeWriteStored(mem, m1, nodes, ring, but, s);
    LinkWriteStored(m1, m2, nodes, ring, but, p);
    LinkWriteStored(m2, mem', nodes, ring, but, q);
    ContentOn(mem, m1, m2, nodes, ring, but);
    ContentOn(mem, m2, mem', nodes, ring, but);
  }

  lemma FreeRelinked(mem: Memory, m1: Memory, m2: Memory, mem': Memory, nodes: Nodes, x: int, s: int, p: int, q: int)
    requires Tiled(nodes, |mem|) && s in nodes && p in nodes && q in nodes && x in nodes && x != s
    requires FreeWrites(mem, m1, m2, mem', s, p, q, nodes[s])
    ensures Relinked(mem, mem', x, p, q, s, s)
  {
    hide Tiled, Links, NextFnode, PrevFnode;
    RelinkedOver(mem, m1, m2, mem', mem', nodes, s, x, p, q, s, s);
  }

  /** A node without free neighbours joins the list at its end. */
  lemma FreeLoneRep(mem: Memory, m1: Memory, m2: Memory, mem': Memory, nodes: Nodes, ring: seq<int>, s: int)
    requires Rep(mem, nodes, ring) && s in nodes && s !in ring
    requires FreeWrites(mem, m1, m2, mem', s, ring[|ring| - 1], 0, nodes[s])
    ensures |mem'| == |mem| && Rep(mem', nodes, ring + [s]) && ContentKept(mem, mem', nodes, ring, {s})
  {
    hide Sized, Follows, Preceded, Disjoint, Linked, FreeWrites, ContentKept, FreeAt, BusyAt, Links;
    assert StoredBut(mem, nodes, ring, {s});
    assert Listed(nodes, ring);
    var p := ring[|ring| - 1];
    FreeStored(mem, m1, m2, mem', nodes, ring, s, p, 0);
    forall j {:trigger ring[j]} | 0 <= j < |ring| ensures Relinked(mem, mem', ring[j], p, 0, s, s) {
      FreeRelinked(mem, m1, m2, mem', nodes, ring[j], s, p, 0);
    }
    LinkedMore(mem, mem', ring, s);
  }

  /** A node takes in the free one after it, and its place in the list. */
  lemma FreeNextRep(mem: Memory, m1: Memory, m2: Memory, mem': Memory, nodes: Nodes, ring: seq<int>, k: int, s: int,
      t: int, p: int, q: int)
    requires Rep(mem, nodes, ring) && |mem| <= BLK && Placed(nodes, ring, k, t, p, q) && s in nodes && s !in ring
      && t == s + nodes[s]
    requires FreeWrites(mem, m1, m2, mem', s, p, q, nodes[s] + nodes[t])
    ensures |mem'| == |mem| && Rep(mem', Join(nodes, s), ring[k := s]) && ContentKept(mem, mem', nodes, ring, {s})
  {
    hide Sized, Follows, Preceded, Disjoint, Linked, FreeWrites, ContentKept, FreeAt, BusyAt, Links;
    var n' := Join(nodes, s);
    assert Listed(nodes, ring);
    JoinTiled(nodes, |mem|, s);
    assert StoredBut(mem, n', ring, {s});
    FreeStored(mem, m1, m2, mem', n', ring, s, p, q);
    JoinContent(mem, mem', nodes, ring, s);
    forall j {:trigger ring[j]} | 0 <= j < |ring| && j != k ensures Relinked(mem, mem', ring[j], p, q, s, s) {
      FreeRelinked(mem, m1, m2, mem', n', ring[j], s, p, q);
    }
    LinkedInstead(mem, mem', ring, k, s);
    assert Listed(n', ring[k := s]);
    forall x | x in n' ensures if x in ring[k := s] then FreeAt(mem', x, n'[x]) else BusyAt(mem', x, n'[x]) {
      InInsteadAt(ring, k, s, x);
    }
  }

  lemma JoinContent(mem: Memory, mem': Memory, nodes: Nodes, ring: seq<int>, s: int)
    requires s in nodes && s + nodes[s] in nodes && s + nodes[s] in ring
      && ContentKept(mem, mem', Join(nodes, s), ring, {s})
    ensures ContentKept(mem, mem', nodes, ring, {s})
  {
  }

  /** Links of any node of the list seen through a change of one node's length. */
  lemma LenLinks(mem: Memory, mem': Memory, nodes: Nodes, p: int, x: int, a: int, b: int)
    requires Tiled(nodes, |mem|) && p in nodes && x in nodes && LenWrite(mem, mem', p, nodes[p]) && Links(mem, x, a, b)
    ensures Links(mem', x, a, b)
  {
    if x != p { NodesApart(nodes, |mem|, x, p); }
    hide Tiled;
  }

  /** The free node before takes in the one released. */
  lemma FreePrevRep(mem: Memory, mem': Memory, nodes: Nodes, ring: seq<int>, p: int, s: int)
    requires Rep(mem, nodes, ring) && |mem| <= BLK && p in nodes && p in ring && p != 0 && s == p + nodes[p]
      && s in nodes && s !in ring
    requires LenWrite(mem, mem', p, nodes[p] + nodes[s])
    ensures |mem'| == |mem| && Rep(mem', Join(nodes, p), ring) && ContentKept(mem, mem', nodes, ring, {s})
  {
    hide Sized, Follows, Preceded, Disjoint, Linked, ContentKept, FreeAt, BusyAt, Links;
    var n' := Join(nodes, p);
    assert Listed(nodes, ring);
    JoinTiled(nodes, |mem|, p);
    assert StoredBut(mem, n', ring, {p});
    NodeWriteStored(mem, mem', n', ring, {p}, p);
    JoinBusyContent(mem, mem', nodes, ring, p);
    forall k | 0 <= k < |ring| ensures Links(mem', ring[k], ring[Suc(k, |ring|)], ring[Pre(k, |ring|)]) {
      LinksAt(mem, ring, k);
      LenLinks(mem, mem', n', p, ring[k], ring[Suc(k, |ring|)], ring[Pre(k, |ring|)]);
    }
    LinkedOf(mem', ring);
  }

  lemma JoinBusyContent(mem: Memory, mem': Memory, nodes: Nodes, ring: seq<int>, p: int)
    requires p in nodes && p in ring && p + nodes[p] in nodes && ContentKept(mem, mem', Join(nodes, p), ring, {p})
    ensures ContentKept(mem, mem', nodes, ring, {p + nodes[p]})
  {
  }

  /** Both free neighbours and the node released become one, under the place of the one before. */
  ghost predicate BothWrites(mem: Memory, m1: Memory, m2: Memory, mem': Memory, p0: int, p: int, q: int, len: int) {
    NextWrite(mem, m1, p, q) && PrevWrite(m1, m2, q, p) && LenWrite(m2, mem', p0, len)
  }

  lemma BothStored(mem: Memory, m1: Memory, m2: Memory, mem': Memory, nodes: Nodes, ring: seq<int>, p0: int, p: int,
      q: int)
    requires Tiled(nodes, |mem|) && StoredBut(mem, nodes, ring, {p0}) && p0 in nodes && p in nodes && q in nodes
      && p in ring && q in ring
    requires BothWrites(mem, m1, m2, mem', p0, p, q, nodes[p0])
    ensures StoredBut(mem', nodes, ring, {p0}) && ContentKept(mem, mem', nodes, ring, {p0}) && |mem'| == |mem|
  {
    var but := {p0};
    hide Tiled, StoredBut, ContentKept, Links, PrevFnode, NextFnode, Pad;
    LinkWriteStored(mem, m1, nodes, ring, but, p);
    LinkWriteStored(m1, m2, nodes, ring, but, q);
    NodeWriteStored(m2, mem', nodes, ring, but, p0);
    ContentOn(mem, m1, m2, nodes, ring, but);
    ContentOn(mem, m2, mem', nodes, ring, but);
  }

  lemma BothRelinked(mem: Memory, m1: Memory, m2: Memory, mem': Memory, nodes: Nodes, x: int, p0: int, p: int, q: int)
    requires Tiled(nodes, |mem|) && x in nodes && p0 in nodes && p in nodes && q in nodes
    requires BothWrites(mem, m1, m2, mem', p0, p, q, nodes[p0])
    ensures Relinked(mem, mem', x, p, q, q, p)
  {
    if x != p { NodesApart(nodes, |mem|, x, p); }
    if x != q { NodesApart(nodes, |mem|, x, q); }
    hide Tiled, Links, NextFnode, PrevFnode, LenWrite;
    RelinkedBoth(mem, m1, m2, x, p, q, q, p);
    forall a, b | Links(mem, x, a, b) ensures Links(mem', x, if x == p then q else a, if x == q then p else b) {
      LenLinks(m2, mem', nodes, p0, x, if x == p then q else a, if x == q then p else b);
    }
  }

  lemma FreeBothRep(mem: Memory, m1: Memory, m2: Memory, mem': Memory, nodes: Nodes, ring: seq<int>, k: int, p0: int,
      s: int, t: int, p: int, q: int)
    requires Rep(mem, nodes, ring) && |mem| <= BLK && Placed(nodes, ring, k, t, p, q) && s in nodes && s !in ring
      && t == s + nodes[s]
    requires p0 in nodes && p0 in ring && p0 != 0 && s == p0 + nodes[p0]
    requires BothWrites(mem, m1, m2, mem', p0, p, q, nodes[p0] + nodes[s] + nodes[t])
    ensures |mem'| == |mem| && p0 != t && Rep(mem', Join(Join(nodes, s), p0), Without(ring, k))
      && ContentKept(mem, mem', nodes, ring, {s})
  {
    hide Sized, Follows, Preceded, Disjoint, Linked, BothWrites, ContentKept, FreeAt, BusyAt, Links, LenWrite;
    assert Listed(nodes, ring);
    NodesApart(nodes, |mem|, s, p0);
    NodesApart(nodes, |mem|, s, t);
    JoinTiled(nodes, |mem|, s);
    JoinTiled(Join(nodes, s), |mem|, p0);
    var n' := Join(Join(nodes, s), p0);
    assert StoredBut(mem, n', ring, {p0});
    BothStored(mem, m1, m2, mem', n', ring, p0, p, q);
    JoinBothContent(mem, mem', nodes, ring, p0, s);
    forall j {:trigger ring[j]} | 0 <= j < |ring| && j != k ensures Relinked(mem, mem', ring[j], p, q, q, p) {
      BothRelinked(mem, m1, m2, mem', n', ring[j], p0, p, q);
    }
    LinkedWithout(mem, mem', ring, k);
    WithoutIn(ring, k);
    assert Listed(n', Without(ring, k));
    BothFree(m2, mem', p0, m1, mem, p, q, n'[p0]);
    forall x | x in n' ensures if x in Without(ring, k) then FreeAt(mem', x, n'[x]) else BusyAt(mem', x, n'[x]) {
      assert x in Without(ring, k) <==> x in ring && x != t;
    }
  }

  lemma BothFree(m2: Memory, mem': Memory, p0: int, m1: Memory, mem: Memory, p: int, q: int, len: int)
    requires BothWrites(mem, m1, m2, mem', p0, p, q, len)
    ensures FreeAt(mem', p0, len)
  {
  }

  lemma JoinBothContent(mem: Memory, mem': Memory, nodes: Nodes, ring: seq<int>, p: int, s: int)
    requires p in nodes && p in ring && p + nodes[p] == s && s in nodes && s + nodes[s] in nodes && s + nodes[s] in ring
      && p != s && s + nodes[s] != p && s + nodes[s] != s
    requires ContentKept(mem, mem', Join(Join(nodes, s), p), ring, {p})
    ensures ContentKept(mem, mem', nodes, ring, {s})
  {
    var n1 := Join(nodes, s);
    assert n1[p] == nodes[p] && p + n1[p] == s;
    assert forall x :: x in nodes && x !in ring && x != s ==> x in Join(n1, p) && Join(n1, p)[x] == nodes[x];
  }

  // ---- sums and neighbours ----

  lemma SplitSum(nodes: Nodes, ring: seq<int>, k: int, need: int)
    requires Listed(nodes, ring) && 0 < k < |ring| && ring[k] + need !in nodes && need != 0
    ensures FreeSlots(Cut(nodes, ring[k], need), ring[k := ring[k] + need]) == FreeSlots(nodes, ring) - need
  {
    SlotsChanged(nodes, Cut(nodes, ring[k], need), ring, k, ring[k] + need);
  }

  lemma FreeNextSum(nodes: Nodes, ring: seq<int>, k: int, s: int)
    requires Listed(nodes, ring) && 0 < k < |ring| && s in nodes && s !in ring && ring[k] == s + nodes[s]
      && nodes[s] != 0
    ensures FreeSlots(Join(nodes, s), ring[k := s]) == FreeSlots(nodes, ring) + nodes[s]
  {
    SlotsChanged(nodes, Join(nodes, s), ring, k, s);
  }

  lemma FreePrevSum(nodes: Nodes, ring: seq<int>, p: int)
    requires Listed(nodes, ring) && p in ring && p != 0 && p + nodes[p] in nodes && p + nodes[p] !in ring
      && nodes[p] != 0
    ensures FreeSlots(Join(nodes, p), ring) == FreeSlots(nodes, ring) + nodes[p + nodes[p]]
  {
    var k :| 0 <= k < |ring| && ring[k] == p;
    assert ring[k := p] == ring;
    SlotsChanged(nodes, Join(nodes, p), ring, k, p);
  }

  lemma FreeBothSum(nodes: Nodes, ring: seq<int>, k: int, p: int, s: int)
    requires Listed(nodes, ring) && 0 < k < |ring| && s in nodes && s !in ring && ring[k] == s + nodes[s]
      && nodes[s] != 0
    requires p in ring && p != 0 && s == p + nodes[p] && nodes[p] != 0 && p != ring[k]
    ensures FreeSlots(Join(Join(nodes, s), p), Without(ring, k)) == FreeSlots(nodes, ring) + nodes[s]
  {
    var r, n' := Without(ring, k), Join(Join(nodes, s), p);
    assert n'[p] == nodes[p] + nodes[s] + nodes[ring[k]];
    WithoutIn(ring, k);
    SlotsDropped(nodes, ring, k);
    var j :| 0 <= j < |r| && r[j] == p;
    assert j != 0;
    assert r[j := p] == r;
    forall i | 0 < i < |r| && i != j ensures r[i] in nodes && r[i] in n' && n'[r[i]] == nodes[r[i]] {
      assert r[i] != p;
    }
    SlotsChanged(nodes, n', r, j, p);
  }

  lemma SplitApart(nodes: Nodes, n: int, ring: seq<int>, k: int, need: int)
    requires Tiled(nodes, n) && Listed(nodes, ring) && Apart(nodes, ring) && 0 < k < |ring| && ring[k] + need !in nodes
      && 0 < need < nodes[ring[k]]
    ensures Apart(Cut(nodes, ring[k], need), ring[k := ring[k] + need])
  {
    hide Tiled;
    var s := ring[k];
    var t := s + need;
    var c, r := Cut(nodes, s, need), ring[k := t];
    assert s in ring && s + nodes[s] !in ring;
    forall x | x in c && x in r && x + c[x] in r ensures x == 0 {
      InInsteadAt(ring, k, t, x);
      InInsteadAt(ring, k, t, x + c[x]);
      NodeFits(nodes, n, s);
      if x != t && x + nodes[x] == t { NodesApart(nodes, n, x, s); }
    }
  }

  lemma TakeApart(nodes: Nodes, ring: seq<int>, k: int)
    requires Apart(nodes, ring) && 0 < k < |ring| && forall i, j :: 0 <= i < j < |ring| ==> ring[i] != ring[j]
    ensures Apart(nodes, Without(ring, k))
  {
    WithoutIn(ring, k);
  }

  lemma FreeLoneApart(nodes: Nodes, n: int, ring: seq<int>, p: int, s: int)
    requires Tiled(nodes, n) && Apart(nodes, ring) && s in nodes && Meets(nodes, p, s) && (p in ring ==> p == 0)
      && s + nodes[s] !in ring
    ensures Apart(nodes, ring + [s])
  {
    hide Tiled;
    var r := ring + [s];
    forall x | x in nodes && x in r && x + nodes[x] in r ensures x == 0 {
      NodeFits(nodes, n, s);
      if x + nodes[x] == s && x != p { NodesApart(nodes, n, x, p); }
    }
  }

  lemma FreeNextApart(nodes: Nodes, n: int, ring: seq<int>, k: int, p: int, s: int)
    requires Tiled(nodes, n) && Listed(nodes, ring) && Apart(nodes, ring) && s in nodes && s !in ring
      && Meets(nodes, p, s) && (p in ring ==> p == 0)
    requires 0 < k < |ring| && ring[k] == s + nodes[s]
    ensures Apart(Join(nodes, s), ring[k := s])
  {
    hide Tiled;
    var t := ring[k];
    var c, r := Join(nodes, s), ring[k := s];
    NodesApart(nodes, n, s, t);
    assert t in ring && t + nodes[t] !in ring && c[s] == nodes[s] + nodes[t];
    forall x | x in c && x in r && x + c[x] in r ensures x == 0 {
      InInsteadAt(ring, k, s, x);
      InInsteadAt(ring, k, s, x + c[x]);
      if x != s && x + nodes[x] == s && x != p {
        NodesApart(nodes, n, x, p);
      }
    }
  }

  lemma FreePrevApart(nodes: Nodes, n: int, ring: seq<int>, p: int)
    requires Tiled(nodes, n) && Listed(nodes, ring) && Apart(nodes, ring) && p in ring && p + nodes[p] in nodes
      && p + nodes[p] !in ring
    requires p + nodes[p] + nodes[p + nodes[p]] !in ring
    ensures Apart(Join(nodes, p), ring)
  {
    hide Tiled;
  }

  lemma FreeBothApart(nodes: Nodes, n: int, ring: seq<int>, k: int, p: int, s: int)
    requires Tiled(nodes, n) && Listed(nodes, ring) && Apart(nodes, ring) && s in nodes && s !in ring
      && Meets(nodes, p, s) && p in ring && p != 0
    requires 0 < k < |ring| && ring[k] == s + nodes[s]
    ensures Apart(Join(Join(nodes, s), p), Without(ring, k))
  {
    hide Tiled;
    var t := ring[k];
    var c, r := Join(Join(nodes, s), p), Without(ring, k);
    NodesApart(nodes, n, s, t);
    NodesApart(nodes, n, s, p);
    WithoutIn(ring, k);
    assert c[p] == nodes[p] + nodes[s] + nodes[t];
    assert t in ring && t + nodes[t] !in ring;
    forall x | x in c && x in r && x + c[x] in r ensures x == 0 {
      if x != p { assert c[x] == nodes[x]; }
    }
  }

  // ---- the trunk ----

  lemma RepFree(mem: Memory, nodes: Nodes, ring: seq<int>, k: int)
    requires Rep(mem, nodes, ring) && 0 <= k < |ring|
    ensures ring[k] in nodes && FreeAt(mem, ring[k], nodes[ring[k]]) && 0 <= ring[k] && ring[k] + 1 < |mem|
      && ring[k] + nodes[ring[k]] <= |mem|
  {
    RepRing(mem, nodes, ring, k);
    RepNode(mem, nodes, ring, ring[k]);
  }

  /** Three nodes of the list, apart. */
  lemma PlacedApart(nodes: Nodes, n: int, ring: seq<int>, k: int, s: int, p: int, q: int)
    requires Tiled(nodes, n) && Placed(nodes, ring, k, s, p, q)
    ensures 0 <= p && p + 2 < n && 0 <= q && q + 2 < n && 0 <= s && s + nodes[s] <= n
    ensures (s + nodes[s] <= p || p + 2 < s) && (s + nodes[s] <= q || q + 2 < s) && nodes[s] >= MIN_NODE_SIZE
  {
    NodesApart(nodes, n, s, p);
    NodesApart(nodes, n, s, q);
  }

  lemma RepTiled(mem: Memory, nodes: Nodes, ring: seq<int>)
    requires Rep(mem, nodes, ring)
    ensures Tiled(nodes, |mem|) && Listed(nodes, ring)
  {
  }

  /** Where `t` is in the list. */
  ghost function PlaceOf(ring: seq<int>, t: int): (k: int)
    requires t in ring
    ensures 0 <= k < |ring| && ring[k] == t
  {
    var k :| 0 <= k < |ring| && ring[k] == t;
    k
  }

  /** The nodes once `s` is free and merged with its free neighbours; `p` is the one before it. */
  ghost function FreedNodes(nodes: Nodes, ring: seq<int>, p: int, s: int): Nodes
    requires s in nodes
  {
    var n1 := if s + nodes[s] in ring then Join(nodes, s) else nodes;
    if p in ring && p != 0 then Join(n1, p) else n1
  }

  /** The list then: the node has its successor's place, or its predecessor's, or comes last. */
  ghost function FreedRing(nodes: Nodes, ring: seq<int>, p: int, s: int): seq<int>
    requires s in nodes
  {
    var t := s + nodes[s];
    if p in ring && p != 0 then
      if t in ring then Without(ring, PlaceOf(ring, t)) else ring
    else
      if t in ring then ring[PlaceOf(ring, t) := s] else ring + [s]
  }

  /** What is read as the head of the node at `s`; past the end of the trunk, `past`. */
  function HeadAt(mem: Memory, s: int, past: Slot): Slot {
    if 0 <= s < |mem| then mem[s] else past
  }

  /**
   * The guards read around the node `s` do not lie: content before it does not end like a free node, nor is there one
   * past the trunk.
   */
  ghost predicate GuardsHold(mem: Memory, nodes: Nodes, ring: seq<int>, s: int, past: Slot) {
    && 0 < s <= |mem| && s in nodes
    && ((exists p :: Meets(nodes, p, s) && p !in ring) ==> mem[s - 1].hi != FREE_GUARD1)
    && (s + nodes[s] == |mem| ==> Pad(past) != FREE_GUARD0)
  }

  /** The two tests of the release find exactly the free neighbours, if and only if the guards do not lie. */
  lemma GuardsTell(mem: Memory, nodes: Nodes, ring: seq<int>, s: int, p: int, past: Slot)
    requires Rep(mem, nodes, ring) && s in nodes && s !in ring && Meets(nodes, p, s)
    ensures 0 < s <= |mem|
    ensures GuardsHold(mem, nodes, ring, s, past) <==>
              && (mem[s - 1].hi == FREE_GUARD1 <==> p in ring)
              && (Pad(HeadAt(mem, s + nodes[s], past)) == FREE_GUARD0 <==> s + nodes[s] in ring)
    ensures p in ring ==> mem[s - 1] == Slot(nodes[p] - 1, FREE_GUARD1) && FreeAt(mem, p, nodes[p])
  {
    hide Rep, Tiled;
    RepTiled(mem, nodes, ring);
    RepNode(mem, nodes, ring, s);
    RepNode(mem, nodes, ring, p);
    forall q | Meets(nodes, q, s) ensures q == p {
      if q != p { NodesApart(nodes, |mem|, p, q); }
    }
    var t := s + nodes[s];
    if t in nodes { RepNode(mem, nodes, ring, t); }
    if t in ring { RingIn(nodes, ring, t); }
  }

  lemma RingIn(nodes: Nodes, ring: seq<int>, t: int)
    requires Listed(nodes, ring) && t in ring
    ensures t in nodes && (t != 0 ==> PlaceOf(ring, t) > 0)
  {
  }

  lemma RepBefore(mem: Memory, nodes: Nodes, ring: seq<int>, s: int) returns (p: int)
    requires Rep(mem, nodes, ring) && s in nodes && s !in ring
    ensures Meets(nodes, p, s) && 0 < s
  {
    RepNode(mem, nodes, ring, s);
    RepTiled(mem, nodes, ring);
    hide Rep, Preceded;
    p := Before(nodes, s);
  }

  class Trunk {
    const total: int
    var mem: Memory
    var used: int
    ghost var nodes: Nodes
    ghost var ring: seq<int>

    constructor (total: int)
      requires Init.Cuttable(total) && total + MIN_NODE_SIZE <= BLK
      ensures Valid() && this.total == total && used == 0 && nodes == map[0 := MIN_NODE_SIZE, MIN_NODE_SIZE := total]
        && ring == [0, MIN_NODE_SIZE]
    {
      this.total := total;
      used := 0;
      var m := Init.InitTrunk(total);
      mem := m;
      nodes := map[0 := MIN_NODE_SIZE, MIN_NODE_SIZE := total];
      ring := [0, MIN_NODE_SIZE];
      new;
      OneBlock(total);
      Init.FirstSlots(total);
      hide Rep, FreeSlots;
    }

    /** Memory, nodes and list agree; no two free nodes are neighbours; free and used slots are all there are. */
    ghost predicate Valid()
      reads this
    {
      && Rep(mem, nodes, ring) && Apart(nodes, ring)
      && |mem| == total + MIN_NODE_SIZE <= BLK && FreeSlots(nodes, ring) + used == total
    }

    /** Walks the list to the first free node that fits; the head, 0, when there is none. */
    method FindFit(need: int) returns (pfn: int, ghost k: int)
      requires Valid()
      ensures pfn == 0 ==> NoFit(nodes, ring, need)
      ensures pfn != 0 ==> FirstFit(nodes, ring, need, k) && pfn == ring[k]
    {
      hide Rep, Apart, Tiled;
      k := 0;
      RepTiled(mem, nodes, ring);
      RepRing(mem, nodes, ring, 0);
      pfn := NextFnode(mem, 0);
      k := Suc(0, |ring|);
      while pfn != 0
        invariant 0 <= k < |ring| && pfn == ring[k] && (pfn == 0 <==> k == 0)
        invariant forall j :: 0 < j < (if k == 0 then |ring| else k) ==> ring[j] in nodes && !Fits(nodes[ring[j]], need)
        decreases if k == 0 then 0 else |ring| - k
      {
        RepRing(mem, nodes, ring, k);
        RepNode(mem, nodes, ring, pfn);
        var len := GetFnodeLen(mem, pfn, nodes[pfn]);
        if len == need || len >= need + MIN_NODE_SIZE {
          break;
        }
        pfn := NextFnode(mem, pfn);
        k := Suc(k, |ring|);
        RepRing(mem, nodes, ring, k);
      }
    }

    /** The node at place `k` leaves the list for its owner. */
    method Take(s: int, ghost k: int)
      requires Valid() && 0 < k < |ring| && s == ring[k]
      modifies `mem, `used, `ring
      ensures Valid() && ring == Without(old(ring), k) && used == old(used) + nodes[s]
        && ContentKept(old(mem), mem, nodes, old(ring), {s})
    {
      hide Rep, Apart, Tiled, LinkWrite, Links, ContentKept, PrevFnode, NextFnode, NextWrite, PrevWrite, FreeSlots;
      ghost var m0 := mem;
      RepTiled(mem, nodes, ring);
      PlacedAt(mem, nodes, ring, k);
      PlacedApart(nodes, |mem|, ring, k, s, ring[k - 1], ring[Suc(k, |ring|)]);
      RepFree(mem, nodes, ring, k);
      LinkParts(mem, s, ring[Suc(k, |ring|)], ring[k - 1]);
      var prev, next := PrevFnode(mem, s), NextFnode(mem, s);
      var len := GetFnodeLen(mem, s, nodes[s]);
      mem := SetNext(mem, prev, NextBlkIdx(Idx(mem[s])), mem[s + 1].hi);
      ghost var m1 := mem;
      NextIsLink(m0, m1, prev, next);
      LinksThrough(m0, m1, s, next, prev, prev);
      LinkParts(mem, s, next, prev);
      mem := SetPrev(mem, next, PrevBlkIdx(Idx(mem[s])), mem[s + 1].lo);
      ghost var m2 := mem;
      PrevIsLink(m1, m2, next, prev);
      mem := mem[s := Slot(BUSY_GUARD0, len - 1)];
      TakeRep(m0, m1, m2, mem, nodes, ring, k, s, prev, next);
      TakeApart(nodes, ring, k);
      SlotsDropped(nodes, ring, k);
      ring := Without(ring, k);
      used := used + len;
    }

    /** `next += d` in a node's links. */
    method MoveNext(p: int, d: int)
      requires 0 <= p && p + 1 < |mem| && 0 <= d
      modifies `mem
      ensures old(mem)[p + 1].hi + d < BLK ==> NextWrite(old(mem), mem, p, NextFnode(old(mem), p) + d)
    {
      mem := mem[p + 1 := Slot(mem[p + 1].lo, (mem[p + 1].hi + d) % BLK)];
    }

    method MovePrev(q: int, d: int)
      requires 0 <= q && q + 1 < |mem| && 0 <= d
      modifies `mem
      ensures old(mem)[q + 1].lo + d < BLK ==> PrevWrite(old(mem), mem, q, PrevFnode(old(mem), q) + d)
    {
      mem := mem[q + 1 := Slot((mem[q + 1].lo + d) % BLK, mem[q + 1].hi)];
    }

    /** The part of the node `s` after `need` slots becomes a node with its links. */
    method CutOff(s: int, need: int, ghost len: int, ghost next: int, ghost prev: int)
      requires FreeAt(mem, s, len) && Links(mem, s, next, prev) && need >= MIN_NODE_SIZE && len >= need + MIN_NODE_SIZE
      modifies `mem
      ensures Within(old(mem), mem, s + 1, s + len) && FreeAt(mem, s + need, len - need)
        && Links(mem, s + need, next, prev)
    {
      var t := s + need;
      mem := mem[t := mem[s]];
      mem := mem[t + 1 := mem[s + 1]];
      LinksAlike2(old(mem), mem, s, t, next, prev);
      var l := GetFnodeLen(mem, s, len);
      ghost var m1 := mem;
      mem := SetFnodeLen(mem, t, l - need);
    }

    /** The front of the node at place `k` goes to its owner. */
    method Split(s: int, need: int, ghost k: int)
      requires Valid() && 0 < k < |ring| && s == ring[k] && need >= MIN_NODE_SIZE && nodes[s] >= need + MIN_NODE_SIZE
      modifies `mem, `used, `nodes, `ring
      ensures Valid() && nodes == Cut(old(nodes), s, need) && ring == old(ring)[k := s + need]
        && used == old(used) + need
      ensures ContentKept(old(mem), mem, old(nodes), old(ring), {s})
    {
      hide Rep, Apart, Tiled, LinkWrite, Links, ContentKept, PrevFnode, NextFnode, NextWrite, PrevWrite, FreeSlots,
        FreeAt;
      ghost var m0, p, q := mem, ring[k - 1], ring[Suc(k, |ring|)];
      RepTiled(mem, nodes, ring);
      PlacedAt(mem, nodes, ring, k);
      PlacedApart(nodes, |mem|, ring, k, s, p, q);
      RepFree(mem, nodes, ring, k);
      LinkParts(mem, s, q, p);
      var prev, next := PrevFnode(mem, s), NextFnode(mem, s);
      CutOff(s, need, nodes[s], q, p);
      ghost var m1 := mem;
      CutLinks(m0, m1, nodes, ring, k, s, p, q, need);
      MoveNext(prev, need);
      ghost var m2 := mem;
      CutLinks2(m1, m2, p, q, s, need);
      MovePrev(next, need);
      ghost var m3 := mem;
      PrevIsLink(m2, m3, q, s + need);
      mem := mem[s := Slot(BUSY_GUARD0, need - 1)];
      SplitRep(m0, m1, m2, m3, mem, nodes, ring, k, s, p, q, need);
      CutTiled(nodes, |m0|, s, need);
      SplitApart(nodes, |m0|, ring, k, need);
      SplitSum(nodes, ring, k, need);
      nodes, ring := Cut(nodes, s, need), ring[k := s + need];
      used := used + need;
    }

    /** Allocates from the first free node in list order that fits; the slot of the content, or NULL. */
    method Alloc(size: U32) returns (r: int, ghost k: int)
      requires Valid() && NeedSlots(size) <= BLK
      modifies `mem, `used, `nodes, `ring
      ensures Valid()
      ensures r == NULL <==> NoFit(old(nodes), old(ring), NeedSlots(size))
      ensures r == NULL ==> mem == old(mem) && used == old(used) && nodes == old(nodes) && ring == old(ring)
      ensures r != NULL ==> && FirstFit(old(nodes), old(ring), NeedSlots(size), k) && r == old(ring)[k] + 1
                            && nodes == AllocNodes(old(nodes), r - 1, NeedSlots(size))
                            && ring == AllocRing(old(nodes), old(ring), k, NeedSlots(size))
                            && used == old(used) + NeedSlots(size)
                            && ContentKept(old(mem), mem, old(nodes), old(ring), {r - 1})
      ensures size < TWO_32 - 7 && r != NULL ==> r - 1 in nodes && Wanted(size, nodes[r - 1])
      ensures size < TWO_32 - 7 && r == NULL ==> forall s, j :: Wanted(size, s) && 0 < j < |ring| ==>
          ring[j] in nodes && nodes[ring[j]] != s && nodes[ring[j]] < s + MIN_NODE_SIZE
    {
      hide Rep, Apart, Tiled, ContentKept, FreeSlots, Cut;
      if size < TWO_32 - 7 {
        forall s: int ensures Wanted(size, s) <==> s == NeedSlots(size) { NeedIsWanted(size, s); }
      }
      assert NeedSlots(size) > 0;
      hide NeedSlots, Wanted;
      k := 0;
      var need := NeedSlots(size);
      if used == total {
        FullTrunk(mem, nodes, ring, need);
        return NULL, k;
      }
      if need > total {
        FullTrunk(mem, nodes, ring, need);
        return NULL, k;
      }
      var pfn;
      pfn, k := FindFit(need);
      if pfn == 0 {
        return NULL, k;
      }
      assert !NoFit(nodes, ring, need);
      RepFree(mem, nodes, ring, k);
      var len := GetFnodeLen(mem, pfn, nodes[pfn]);
      if len == need {
        Take(pfn, k);
      } else {
        Split(pfn, need, k);
      }
      r := pfn + 1;
      NodeAfter(old(nodes), pfn, need);
    }

    /** The owner of the node `s` stores something in it. */
    method Store(s: int, i: int, v: Slot)
      requires Valid() && s in nodes && s !in ring && s < i < s + nodes[s]
      modifies `mem
      ensures Valid() && mem == old(mem)[i := v]
    {
      hide Rep, Apart, Tiled, FreeSlots;
      RepNode(mem, nodes, ring, s);
      StoreRep(mem, nodes, ring, s, i, v);
      mem := mem[i := v];
    }

    /** Makes `s` the next of `p` and the previous one of `q`. */
    method LinkTo(p: int, q: int, s: int) returns (ghost m2: Memory)
      requires 0 <= p && p + 1 < |mem| && 0 <= q && q + 1 < |mem| && 0 <= s < BLK
      modifies `mem
      ensures NextWrite(old(mem), m2, p, s) && PrevWrite(m2, mem, q, s)
    {
      assert SlotAbsPos(s / BLK, s % BLK) == s;
      hide SlotAbsPos;
      mem := SetNext(mem, p, s / BLK, s % BLK);
      m2 := mem;
      NextIsLink(old(mem), m2, p, s);
      mem := SetPrev(mem, q, s / BLK, s % BLK);
    }

    /** A node without free neighbours: it comes last in the list. */
    method FreeLone(s: int, ghost p: int)
      requires Valid() && s in nodes && s !in ring && Meets(nodes, p, s) && (p in ring ==> p == 0)
        && s + nodes[s] !in ring
      modifies `mem, `used, `ring
      ensures Valid() && ring == old(ring) + [s] && used == old(used) - nodes[s]
        && ContentKept(old(mem), mem, nodes, old(ring), {s})
    {
      hide Rep, Apart, Tiled, LinkWrite, Links, ContentKept, PrevFnode, NextFnode, NextWrite, PrevWrite, FreeSlots,
        FreeAt, Within,
        LenWrite, Idx, PrevBlkIdx, NextBlkIdx, SlotAbsPos;
      RepTiled(mem, nodes, ring);
      ghost var m0, q := mem, ring[|ring| - 1];
      RepNode(mem, nodes, ring, s);
      RepRing(mem, nodes, ring, 0);
      RepRing(mem, nodes, ring, |ring| - 1);
      FreeApart(nodes, |mem|, s, 0, q);
      LinkParts(mem, 0, ring[Suc(0, |ring|)], q);
      LinkParts(mem, q, 0, ring[Pre(|ring| - 1, |ring|)]);
      var len := mem[s].hi + 1;
      var ppfn := PrevFnode(mem, 0);
      mem := SetFnodeLen(mem, s, len);
      LenIs(m0, mem, s, len);
      LenElse(m0, mem, s, len, 0, ring[Suc(0, |ring|)], q);
      LenElse(m0, mem, s, len, q, 0, ring[Pre(|ring| - 1, |ring|)]);
      LinkParts(mem, 0, ring[Suc(0, |ring|)], q);
      LinkParts(mem, q, 0, ring[Pre(|ring| - 1, |ring|)]);
      mem := PutLinks(mem, s, PnBlkIdx(PrevBlkIdx(Idx(mem[0])), NextBlkIdx(Idx(mem[ppfn]))), mem[1].lo,
            mem[ppfn + 1].hi, m0, len, 0, q);
      ghost var m1 := mem;
      ghost var m2 := LinkTo(ppfn, 0, s);
      FreeLoneRep(m0, m1, m2, mem, nodes, ring, s);
      FreeLoneApart(nodes, |m0|, ring, p, s);
      SlotsAdded(nodes, ring, s);
      ring := ring + [s];
      used := used - len;
    }

    /** A node before a free one takes it in, and its place in the list. */
    method FreeNext(s: int, t: int, ghost p: int, ghost k: int)
      requires Valid() && s in nodes && s !in ring && Meets(nodes, p, s) && (p in ring ==> p == 0)
      requires 0 < k < |ring| && ring[k] == t == s + nodes[s]
      modifies `mem, `used, `nodes, `ring
      ensures Valid() && nodes == Join(old(nodes), s) && ring == old(ring)[k := s] && used == old(used) - old(nodes)[s]
      ensures ContentKept(old(mem), mem, old(nodes), old(ring), {s})
    {
      hide Rep, Apart, Tiled, LinkWrite, Links, ContentKept, PrevFnode, NextFnode, NextWrite, PrevWrite, FreeSlots,
        FreeAt, Within,
        LenWrite, Idx, PrevBlkIdx, NextBlkIdx, SlotAbsPos, Join;
      RepTiled(mem, nodes, ring);
      ghost var m0, a, b := mem, ring[k - 1], ring[Suc(k, |ring|)];
      PlacedAt(mem, nodes, ring, k);
      RepNode(mem, nodes, ring, s);
      RepFree(mem, nodes, ring, k);
      FreeApart(nodes, |mem|, s, a, b);
      FreeApart(nodes, |mem|, t, a, b);
      LinkParts(mem, t, b, a);
      var len := mem[s].hi + 1;
      var prev, next := PrevFnode(mem, t), NextFnode(mem, t);
      var l := GetFnodeLen(mem, t, nodes[t]);
      mem := SetFnodeLen(mem, s, len + l);
      LenIs(m0, mem, s, len + l);
      LenInside(m0, mem, s, len, l, b, a);
      mem := PutLinks(mem, s, Idx(mem[t]), mem[t + 1].lo, mem[t + 1].hi, m0, len + l, b, a);
      ghost var m1 := mem;
      ghost var m2 := LinkTo(prev, next, s);
      FreeNextRep(m0, m1, m2, mem, nodes, ring, k, s, t, a, b);
      FreeNextApart(nodes, |m0|, ring, k, p, s);
      FreeNextSum(nodes, ring, k, s);
      nodes, ring := Join(nodes, s), ring[k := s];
      used := used - len;
    }

    /** The free node `p` before `s` takes it in. */
    method FreePrev(s: int, p: int)
      requires Valid() && s in nodes && s !in ring && Meets(nodes, p, s) && p in ring && p != 0 && s + nodes[s] !in ring
      modifies `mem, `used, `nodes
      ensures Valid() && nodes == Join(old(nodes), p) && used == old(used) - old(nodes)[s]
      ensures ContentKept(old(mem), mem, old(nodes), ring, {s})
    {
      hide Rep, Apart, Tiled, Links, ContentKept, PrevFnode, NextFnode, FreeSlots, Within, LenWrite, Join;
      ghost var m0 := mem;
      RepTiled(mem, nodes, ring);
      RepNode(mem, nodes, ring, s);
      RepNode(mem, nodes, ring, p);
      var len := mem[s].hi + 1;
      var l := GetFnodeLen(mem, p, nodes[p]);
      mem := SetFnodeLen(mem, p, l + len);
      FreePrevRep(m0, mem, nodes, ring, p, s);
      FreePrevApart(nodes, |m0|, ring, p);
      FreePrevSum(nodes, ring, p);
      nodes := Join(nodes, p);
      used := used - len;
    }

    /** The free node `p` before `s` takes it in, and the free node `t` after it, which leaves the list. */
    method FreeBoth(s: int, p: int, t: int, ghost k: int)
      requires Valid() && s in nodes && s !in ring && Meets(nodes, p, s) && p in ring && p != 0
      requires 0 < k < |ring| && ring[k] == t == s + nodes[s]
      modifies `mem, `used, `nodes, `ring
      ensures Valid() && nodes == Join(Join(old(nodes), s), p) && ring == Without(old(ring), k)
        && used == old(used) - old(nodes)[s]
      ensures ContentKept(old(mem), mem, old(nodes), old(ring), {s})
    {
      hide Rep, Apart, Tiled, LinkWrite, Links, ContentKept, PrevFnode, NextFnode, NextWrite, PrevWrite, FreeSlots,
        Within, FreeAt,
        LenWrite, Idx, PrevBlkIdx, NextBlkIdx, SlotAbsPos, Join;
      RepTiled(mem, nodes, ring);
      ghost var m0, a, b := mem, ring[k - 1], ring[Suc(k, |ring|)];
      PlacedAt(mem, nodes, ring, k);
      RepNode(mem, nodes, ring, s);
      RepNode(mem, nodes, ring, p);
      RepFree(mem, nodes, ring, k);
      FreeApart(nodes, |mem|, t, a, b);
      LinkParts(mem, t, b, a);
      var prev, next := PrevFnode(mem, t), NextFnode(mem, t);
      mem := SetNext(mem, prev, NextBlkIdx(Idx(mem[t])), mem[t + 1].hi);
      ghost var m1 := mem;
      NextIsLink(m0, m1, a, b);
      LinksThrough(m0, m1, t, b, a, a);
      LinkParts(mem, t, b, a);
      mem := SetPrev(mem, next, PrevBlkIdx(Idx(mem[t])), mem[t + 1].lo);
      ghost var m2 := mem;
      PrevIsLink(m1, m2, b, a);
      BothHeads(m0, m1, m2, nodes, ring, k, s, p, t, a, b);
      var len := mem[s].hi + 1;
      var l := GetFnodeLen(mem, p, nodes[p]);
      var n := GetFnodeLen(mem, t, nodes[t]);
      mem := SetFnodeLen(mem, p, l + len + n);
      FreeBothRep(m0, m1, m2, mem, nodes, ring, k, p, s, t, a, b);
      FreeBothApart(nodes, |m0|, ring, k, p, s);
      FreeBothSum(nodes, ring, k, p, s);
      nodes, ring := Join(Join(nodes, s), p), Without(ring, k);
      used := used - len;
    }

    /** cvsp_free: the node becomes free, merged with its free neighbours. */
    method Free(str: int, past: Slot) returns (ghost p: int)
      requires Valid() && str - 1 in nodes && str - 1 !in ring && GuardsHold(mem, nodes, ring, str - 1, past)
      modifies `mem, `used, `nodes, `ring
      ensures Valid() && Meets(old(nodes), p, str - 1) && used == old(used) - old(nodes)[str - 1]
      ensures nodes == FreedNodes(old(nodes), old(ring), p, str - 1)
        && ring == FreedRing(old(nodes), old(ring), p, str - 1)
      ensures ContentKept(old(mem), mem, old(nodes), old(ring), {str - 1})
    {
      hide Rep, Apart, Tiled, ContentKept, FreeSlots, Join, GuardsHold;
      var s := str - 1;
      p := RepBefore(mem, nodes, ring, s);
      GuardsTell(mem, nodes, ring, s, p, past);
      RepNode(mem, nodes, ring, s);
      RepTiled(mem, nodes, ring);
      var len := mem[s].hi + 1;
      var nextfn0 := s + len;
      var nextFree := Pad(HeadAt(mem, nextfn0, past)) == FREE_GUARD0;
      var prevFree, prevfn0 := false, 0;
      if mem[s - 1].hi == FREE_GUARD1 {
        prevfn0 := s - (mem[s - 1].lo + 1);
        assert Pad(mem[prevfn0]) == FREE_GUARD0 && mem[prevfn0].hi == mem[s - 1].lo;
        prevFree := prevfn0 != 0;
      }
      if nextFree { RingIn(nodes, ring, nextfn0); }
      if prevFree && nextFree {
        FreeBoth(s, prevfn0, nextfn0, PlaceOf(ring, nextfn0));
      } else if prevFree {
        FreePrev(s, prevfn0);
      } else if nextFree {
        FreeNext(s, nextfn0, p, PlaceOf(ring, nextfn0));
      } else {
        FreeLone(s, p);
      }
    }
  }

  lemma LenInside(mem: Memory, mem': Memory, s: int, len: int, l: int, next: int, prev: int)
    requires LenWrite(mem, mem', s, len + l) && 0 <= s && MIN_NODE_SIZE <= len && MIN_NODE_SIZE <= l
      && s + len + l <= |mem| && Links(mem, s + len, next, prev)
    ensures Links(mem', s + len, next, prev)
    ensures SlotAbsPos(NextBlkIdx(Idx(mem'[s + len])), mem'[s + len + 1].hi) == next
      && SlotAbsPos(PrevBlkIdx(Idx(mem'[s + len])), mem'[s + len + 1].lo) == prev
  {
  }

  /** After the two link writes the heads of the nodes to merge say what they said. */
  lemma BothHeads(mem: Memory, m1: Memory, m2: Memory, nodes: Nodes, ring: seq<int>, k: int, s: int, p: int, t: int,
      a: int, b: int)
    requires Rep(mem, nodes, ring) && Placed(nodes, ring, k, t, a, b) && NextWrite(mem, m1, a, b)
      && PrevWrite(m1, m2, b, a)
    requires s in nodes && s !in ring && p in nodes && p in ring
    ensures |m2| == |mem| && 0 <= s < |m2| && m2[s].hi == nodes[s] - 1 && FreeAt(m2, p, nodes[p])
      && FreeAt(m2, t, nodes[t])
  {
    RepTiled(mem, nodes, ring);
    assert StoredBut(mem, nodes, ring, {});
    NextIsLink(mem, m1, a, b);
    PrevIsLink(m1, m2, b, a);
    hide Rep, Tiled, NextWrite, PrevWrite, LinkWrite, FreeAt;
    LinkWriteStored(mem, m1, nodes, ring, {}, a);
    LinkWriteStored(m1, m2, nodes, ring, {}, b);
    assert BusyAt(m2, s, nodes[s]);
  }

  /** A trunk of one block begins with one free node. */
  lemma OneBlock(total: int)
    requires Init.Cuttable(total) && total + MIN_NODE_SIZE <= BLK
    ensures var n := total + MIN_NODE_SIZE;
            Init.FirstNodes(n, Init.BlocksOf(n) + 1) == map[0 := MIN_NODE_SIZE, MIN_NODE_SIZE := total]
            && Init.FirstRing(n) == [0, MIN_NODE_SIZE]
  {
    var n := total + MIN_NODE_SIZE;
    assert Init.BlocksOf(n) == 1;
    assert Init.FirstNodes(n, 0) == map[];
    assert Init.FirstNodes(n, 1) == map[0 := MIN_NODE_SIZE];
    assert Init.FirstNodes(n, 2) == map[0 := MIN_NODE_SIZE, MIN_NODE_SIZE := total];
  }

  /** Releasing what was just allocated gives back the nodes, and the list but for its order. */
  lemma AllocUndone(nodes: Nodes, n: int, ring: seq<int>, k: int, need: int, p: int)
    requires Tiled(nodes, n) && Listed(nodes, ring) && Apart(nodes, ring) && FirstFit(nodes, ring, need, k)
      && need >= MIN_NODE_SIZE
    requires Meets(AllocNodes(nodes, ring[k], need), p, ring[k])
    ensures var s := ring[k]; var c, r := AllocNodes(nodes, s, need), AllocRing(nodes, ring, k, need);
            && s in c && FreedNodes(c, r, p, s) == nodes
            && (forall x :: x in FreedRing(c, r, p, s) <==> x in ring)
            && (nodes[s] != need ==> FreedRing(c, r, p, s) == ring)
  {
    hide Tiled;
    var s := ring[k];
    NodeFits(nodes, n, s);
    BeforeFree(nodes, n, ring, k, need, p);
    if nodes[s] == need {
      WithoutIn(ring, k);
      assert s in ring && s + need !in ring;
    } else {
      var t, r := s + need, ring[k := s + need];
      if t in nodes { NodesApart(nodes, n, s, t); }
      InInsteadAt(ring, k, t, p);
      assert r[k] == t;
      assert PlaceOf(r, t) == k by {
        var j := PlaceOf(r, t);
        assert r[j] == t;
        assert ring[j] in nodes;
      }
      assert Join(Cut(nodes, s, need), s) == nodes;
      assert r[k := s] == ring;
    }
  }

  /** Before a free node there is no other one. */
  lemma BeforeFree(nodes: Nodes, n: int, ring: seq<int>, k: int, need: int, p: int)
    requires Tiled(nodes, n) && Listed(nodes, ring) && Apart(nodes, ring) && FirstFit(nodes, ring, need, k)
      && need >= MIN_NODE_SIZE
    requires Meets(AllocNodes(nodes, ring[k], need), p, ring[k])
    ensures p in nodes && p != ring[k] && p != ring[k] + need && p + nodes[p] == ring[k] && (p in ring ==> p == 0)
  {
    hide Tiled;
    var s := ring[k];
    NodeFits(nodes, n, s);
    assert s in ring;
    if nodes[s] != need {
      var c := Cut(nodes, s, need);
      assert c[s] == need && c[s + need] == nodes[s] - need;
      assert Meets(c, p, s);
      assert p != s + need && p != s;
      assert c[p] == nodes[p];
    } else {
      NodeFits(nodes, n, p);
    }
  }

  lemma StoreRep(mem: Memory, nodes: Nodes, ring: seq<int>, s: int, i: int, v: Slot)
    requires Rep(mem, nodes, ring) && s in nodes && s !in ring && 0 <= s < i < s + nodes[s] <= |mem|
    ensures Rep(mem[i := v], nodes, ring)
  {
    hide Tiled, Linked, FreeAt, PrevFnode, NextFnode;
    var m := mem[i := v];
    assert StoredBut(mem, nodes, ring, {s});
    NodeWriteStored(mem, m, nodes, ring, {s}, s);
    forall k | 0 <= k < |ring| ensures Links(m, ring[k], ring[Suc(k, |ring|)], ring[Pre(k, |ring|)]) {
      LinksAt(mem, ring, k);
    }
    LinkedOf(m, ring);
    assert BusyAt(m, s, nodes[s]);
  }

  lemma FreeApart(nodes: Nodes, n: int, s: int, p: int, q: int)
    requires Tiled(nodes, n) && s in nodes && p in nodes && q in nodes && s != p && s != q
    ensures 0 <= s && 0 <= p && 0 <= q && s + nodes[s] <= n && p + 2 < n && q + 2 < n && nodes[s] >= MIN_NODE_SIZE
    ensures (s + nodes[s] <= p || p + 2 < s) && (s + nodes[s] <= q || q + 2 < s)
  {
    NodesApart(nodes, n, s, p);
    NodesApart(nodes, n, s, q);
  }

  lemma LinksAlike2(mem: Memory, mem': Memory, s: int, t: int, a: int, b: int)
    requires 0 <= s && s + 1 < |mem| && 0 <= t && t + 1 < |mem'| && mem[s] == mem'[t] && mem[s + 1] == mem'[t + 1]
    ensures Links(mem, s, a, b) ==> Links(mem', t, a, b)
  {
  }

  /** What the neighbours in the list hold once the cut has been written. */
  lemma CutLinks(mem: Memory, m1: Memory, nodes: Nodes, ring: seq<int>, k: int, s: int, p: int, q: int, need: int)
    requires Rep(mem, nodes, ring) && |mem| <= BLK && Placed(nodes, ring, k, s, p, q)
      && Within(mem, m1, s + 1, s + nodes[s]) && 0 <= need < nodes[s]
    ensures 0 <= p && p + 1 < |m1| && NextFnode(m1, p) == s && m1[p + 1].hi + need < BLK
    ensures 0 <= q && q + 1 < |m1| && PrevFnode(m1, q) == s && m1[q + 1].lo + need < BLK
    ensures p == q || p + 1 < q || q + 1 < p
  {
    hide Rep, Tiled;
    RepTiled(mem, nodes, ring);
    if p != q { NodesApart(nodes, |mem|, p, q); }
    PlacedApart(nodes, |mem|, ring, k, s, p, q);
    RepRing(mem, nodes, ring, k - 1);
    RepRing(mem, nodes, ring, Suc(k, |ring|));
    assert m1[p] == mem[p] && m1[p + 1] == mem[p + 1] && m1[q] == mem[q] && m1[q + 1] == mem[q + 1];
  }

  lemma CutLinks2(m1: Memory, m2: Memory, p: int, q: int, s: int, need: int)
    requires 0 <= p && p + 1 < |m1| && 0 <= q && q + 1 < |m1| && (p == q || p + 1 < q || q + 1 < p)
    requires NextWrite(m1, m2, p, s + need) && PrevFnode(m1, q) == s && m1[q + 1].lo + need < BLK && 0 <= s
      && s + need < BLK && need >= 0
    ensures |m2| == |m1| && PrevFnode(m2, q) == s && m2[q + 1].lo + need < BLK && LinkWrite(m1, m2, p)
  {
  }

  /**
   * Two objects side by side, the first one ending in the two bytes of the guard of a free tail: to release the second
   * one takes the first for a free node, and stops at the check of its head.
   */
  method GuardMisled(past: Slot) returns (t: Trunk, s: int)
    ensures t.Valid() && s in t.nodes && s !in t.ring && !GuardsHold(t.mem, t.nodes, t.ring, s, past)
    ensures 0 < s < |t.mem| && t.mem[s - 1].hi == FREE_GUARD1
    ensures var p := s - (t.mem[s - 1].lo + 1);
            0 <= p < |t.mem| && p in t.nodes && p !in t.ring && Pad(t.mem[p]) != FREE_GUARD0
  {
    hide Rep, Apart, ContentKept, FreeSlots;
    t := new Trunk(9);
    ghost var k;
    var a, b;
    a, k := t.Alloc(8);
    assert t.nodes == map[0 := 3, 3 := 3, 6 := 6] && t.ring == [0, 6] by {
      OnlyFit(map[0 := 3, 3 := 9], [0, 3], 3, k);
      assert a != NULL;
      assert [0, 3][1 := 6] == [0, 6];
    }
    b, k := t.Alloc(8);
    assert t.nodes == map[0 := 3, 3 := 3, 6 := 3, 9 := 3] && t.ring == [0, 9] by {
      OnlyFit(map[0 := 3, 3 := 3, 6 := 6], [0, 6], 3, k);
      assert b != NULL;
      assert [0, 6][1 := 9] == [0, 9];
    }
    t.Store(3, 5, Slot(2, FREE_GUARD1));
    s := 6;
    RepNode(t.mem, t.nodes, t.ring, 3);
    assert Meets(t.nodes, 3, 6) && 3 !in t.ring;
  }

  /** A list of the head and one node that fits. */
  lemma OnlyFit(nodes: Nodes, ring: seq<int>, need: int, k: int)
    requires |ring| == 2 && ring[1] in nodes && Fits(nodes[ring[1]], need)
    ensures !NoFit(nodes, ring, need) && (FirstFit(nodes, ring, need, k) ==> k == 1)
  {
  }
}
