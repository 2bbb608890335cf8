/**
 * One trunk of the compact pool: nodes of 4-byte slots, and the circular list of the free ones that is encoded in them.
 */
module CompactRing {
  type U16 = x: int | 0 <= x < 0x1_0000

  /** Four bytes of memory, as two little-endian halves. */
  datatype Slot = Slot(lo: U16, hi: U16)

  type Memory = seq<Slot>

  /** The length of each node by its first slot. */
  type Nodes = map<int, int>

  const FREE_GUARD0 := 0xF5
  const FREE_GUARD1: U16 := 0xFFF7
  const BUSY_GUARD0: U16 := 0xFFF8
  const MIN_NODE_SIZE := 3

  /** The slots of a block. */
  const BLK := 0x1_0000

  // ---- the fields of a node, and the encoding of links ----

  function Pad(s: Slot): int {
    s.lo % 256
  }

  function Idx(s: Slot): (r: int)
    ensures 0 <= r < 256
  {
    s.lo / 256
  }

  function WithIdx(s: Slot, idx: int): (r: Slot)
    requires 0 <= idx < 256
    ensures Pad(r) == Pad(s) && Idx(r) == idx && r.hi == s.hi
  {
    Slot(s.lo % 256 + idx * 256, s.hi)
  }

  function PnBlkIdx(prev: int, next: int): (r: int)
    requires 0 <= prev < 16 && 0 <= next < 16
    ensures 0 <= r < 256 && PrevBlkIdx(r) == prev && NextBlkIdx(r) == next
  {
    prev * 16 + next
  }

  function PrevBlkIdx(idx: int): int {
    idx / 16
  }

  function NextBlkIdx(idx: int): int {
    idx % 16
  }

  function SlotAbsPos(blk: int, off: int): int {
    blk * BLK + off
  }

  /** The next free node after the one at `p`. */
  function NextFnode(mem: Memory, p: int): int
    requires 0 <= p && p + 1 < |mem|
  {
    SlotAbsPos(NextBlkIdx(Idx(mem[p])), mem[p + 1].hi)
  }

  function PrevFnode(mem: Memory, p: int): int
    requires 0 <= p && p + 1 < |mem|
  {
    SlotAbsPos(PrevBlkIdx(Idx(mem[p])), mem[p + 1].lo)
  }

  // ---- what the memory means ----

  /** The nodes cover the slots from 0 on, without gap or overlap; the first one is the list head. */
  ghost predicate Tiled(nodes: Nodes, n: int) {
    0 in nodes && nodes[0] == MIN_NODE_SIZE && Sized(nodes, n) && Follows(nodes, n) && Preceded(nodes)
    && Disjoint(nodes)
  }

  ghost predicate Sized(nodes: Nodes, n: int) {
    forall s :: s in nodes ==> 0 <= s && MIN_NODE_SIZE <= nodes[s] <= BLK && s + nodes[s] <= n
  }

  ghost predicate Follows(nodes: Nodes, n: int) {
    forall s :: s in nodes ==> s + nodes[s] == n || s + nodes[s] in nodes
  }

  ghost predicate Preceded(nodes: Nodes) {
    forall s :: s in nodes && s != 0 ==> exists p :: Meets(nodes, p, s)
  }

  ghost predicate Disjoint(nodes: Nodes) {
    forall s, t :: s in nodes && t in nodes && s < t ==> s + nodes[s] <= t
  }

  /** The node at `p` ends where `s` begins. */
  predicate Meets(nodes: Nodes, p: int, s: int) {
    p in nodes && p + nodes[p] == s
  }

  /** The free nodes in list order: the head first, each once. */
  ghost predicate Listed(nodes: Nodes, ring: seq<int>) {
    && |ring| > 0 && ring[0] == 0
    && (forall k :: 0 <= k < |ring| ==> ring[k] in nodes)
    && (forall j, k :: 0 <= j < k < |ring| ==> ring[j] != ring[k])
  }

  /** No two neighbours are free, the list head aside. */
  ghost predicate Apart(nodes: Nodes, ring: seq<int>) {
    forall s :: s in nodes && s in ring && s + nodes[s] in ring ==> s == 0
  }

  predicate FreeAt(mem: Memory, s: int, len: int) {
    && 0 <= s && MIN_NODE_SIZE <= len <= BLK && s + len <= |mem|
    && Pad(mem[s]) == FREE_GUARD0 && mem[s].hi == len - 1 && mem[s + len - 1] == Slot(len - 1, FREE_GUARD1)
  }

  predicate BusyAt(mem: Memory, s: int, len: int) {
    && 0 <= s && MIN_NODE_SIZE <= len <= BLK && s + len <= |mem|
    && mem[s] == Slot(BUSY_GUARD0, len - 1)
  }

  /** Headers and tails say what the nodes are. */
  ghost predicate Stored(mem: Memory, nodes: Nodes, ring: seq<int>) {
    forall s :: s in nodes ==> if s in ring then FreeAt(mem, s, nodes[s]) else BusyAt(mem, s, nodes[s])
  }

  function Suc(k: int, n: int): int {
    if k + 1 == n then 0 else k + 1
  }

  predicate LinkAt(mem: Memory, p: int, q: int) {
    0 <= p && p + 1 < |mem| && 0 <= q && q + 1 < |mem| && NextFnode(mem, p) == q && PrevFnode(mem, q) == p
  }

  /** The encoded links lead round the list in both directions. */
  ghost predicate Linked(mem: Memory, ring: seq<int>) {
    forall k :: 0 <= k < |ring| ==> LinkAt(mem, ring[k], ring[Suc(k, |ring|)])
  }

  ghost predicate Rep(mem: Memory, nodes: Nodes, ring: seq<int>) {
    Tiled(nodes, |mem|) && Listed(nodes, ring) && Stored(mem, nodes, ring) && Linked(mem, ring)
  }

  /** The slots of the free nodes, the head's apart. */
  function FreeSlots(nodes: Nodes, ring: seq<int>): int {
    if |ring| <= 1 then 0 else
      var q := ring[|ring| - 1];
      FreeSlots(nodes, ring[..|ring| - 1]) + if q in nodes then nodes[q] else 0
  }

  // ---- sums over the list ----

  lemma {:induction false} SlotsAlike(nodes: Nodes, nodes': Nodes, ring: seq<int>)
    requires forall k :: 0 < k < |ring| ==> ring[k] in nodes && ring[k] in nodes' && nodes'[ring[k]] == nodes[ring[k]]
    ensures FreeSlots(nodes', ring) == FreeSlots(nodes, ring)
  {
    if |ring| > 1 {
      SlotsAlike(nodes, nodes', ring[..|ring| - 1]);
    }
  }

  /** One place of the list gets another node. */
  lemma {:induction false} SlotsChanged(nodes: Nodes, nodes': Nodes, ring: seq<int>, k: int, q: int)
    requires 0 < k < |ring| && ring[k] in nodes && q in nodes'
    requires forall j ::
        0 < j < |ring| && j != k ==> ring[j] in nodes && ring[j] in nodes' && nodes'[ring[j]] == nodes[ring[j]]
    ensures FreeSlots(nodes', ring[k := q]) == FreeSlots(nodes, ring) - nodes[ring[k]] + nodes'[q]
  {
    var n := |ring| - 1;
    if k == n {
      assert ring[k := q][..n] == ring[..n];
      SlotsAlike(nodes, nodes', ring[..n]);
    } else {
      assert ring[k := q][..n] == ring[..n][k := q];
      SlotsChanged(nodes, nodes', ring[..n], k, q);
    }
  }

  /** One place of the list goes. */
  lemma {:induction false} SlotsDropped(nodes: Nodes, ring: seq<int>, k: int)
    requires 0 < k < |ring| && ring[k] in nodes
    ensures FreeSlots(nodes, Without(ring, k)) == FreeSlots(nodes, ring) - nodes[ring[k]]
  {
    var n := |ring| - 1;
    if k == n {
      assert Without(ring, k) == ring[..n];
    } else {
      assert Without(ring, k)[..n - 1] == Without(ring[..n], k);
      SlotsDropped(nodes, ring[..n], k);
    }
  }

  lemma {:induction false} SlotsAdded(nodes: Nodes, ring: seq<int>, q: int)
    requires |ring| > 0 && q in nodes
    ensures FreeSlots(nodes, ring + [q]) == FreeSlots(nodes, ring) + nodes[q]
  {
    assert (ring + [q])[..|ring|] == ring;
  }

  /** The list without its place `k`. */
  function Without(ring: seq<int>, k: int): (r: seq<int>)
    requires 0 <= k < |ring|
    ensures |r| == |ring| - 1
    ensures forall j :: 0 <= j < |r| ==> r[j] == if j < k then ring[j] else ring[j + 1]
  {
    ring[..k] + ring[k + 1..]
  }

  lemma WithoutIn(ring: seq<int>, k: int)
    requires 0 <= k < |ring| && forall i, j :: 0 <= i < j < |ring| ==> ring[i] != ring[j]
    ensures forall q :: q in Without(ring, k) <==> q in ring && q != ring[k]
  {
    var r := Without(ring, k);
    forall q | q in ring && q != ring[k] ensures q in r {
      var j :| 0 <= j < |ring| && ring[j] == q;
      assert r[if j < k then j else j - 1] == q;
    }
  }

  // ---- links ----

  /** At the free node `p` of `mem'` the links are `next` and `prev`. */
  predicate Links(mem: Memory, p: int, next: int, prev: int) {
    0 <= p && p + 1 < |mem| && NextFnode(mem, p) == next && PrevFnode(mem, p) == prev
  }

  /** What the links at the place `k` of the list are. */
  lemma {:induction false} LinksAt(mem: Memory, ring: seq<int>, k: int)
    requires Linked(mem, ring) && 0 <= k < |ring|
    ensures Links(mem, ring[k], ring[Suc(k, |ring|)], ring[Pre(k, |ring|)])
  {
    assert LinkAt(mem, ring[k], ring[Suc(k, |ring|)]);
    assert LinkAt(mem, ring[Pre(k, |ring|)], ring[Suc(Pre(k, |ring|), |ring|)]);
  }

  function Pre(k: int, n: int): int {
    if k == 0 then n - 1 else k - 1
  }

  lemma {:induction false} LinkedOf(mem: Memory, ring: seq<int>)
    requires forall k :: 0 <= k < |ring| ==> Links(mem, ring[k], ring[Suc(k, |ring|)], ring[Pre(k, |ring|)])
    ensures Linked(mem, ring)
  {
    forall k | 0 <= k < |ring| ensures LinkAt(mem, ring[k], ring[Suc(k, |ring|)]) {
      assert Links(mem, ring[k], ring[Suc(k, |ring|)], ring[Pre(k, |ring|)]);
      var j := Suc(k, |ring|);
      assert Links(mem, ring[j], ring[Suc(j, |ring|)], ring[Pre(j, |ring|)]);
    }
  }

  /** The list passes over the place `k`: its neighbours lead to each other. */
  lemma {:induction false} LinkedWithout(mem: Memory, mem': Memory, ring: seq<int>, k: int)
    requires Linked(mem, ring) && 0 < k < |ring|
    requires forall i, j :: 0 <= i < j < |ring| ==> ring[i] != ring[j]
    requires var p, q := ring[k - 1], ring[Suc(k, |ring|)];
             forall j {:trigger ring[j]} :: 0 <= j < |ring| && j != k ==> Relinked(mem, mem', ring[j], p, q, q, p)
    ensures Linked(mem', Without(ring, k))
  {
    hide Links, Relinked, Linked;
    var r := Without(ring, k);
    var n := |r|;
    var p, q := ring[k - 1], ring[Suc(k, |ring|)];
    forall j | 0 <= j < n ensures Links(mem', r[j], r[Suc(j, n)], r[Pre(j, n)]) {
      var j0 := if j < k then j else j + 1;
      assert r[j] == ring[j0];
      LinksAt(mem, ring, j0);
      RelinkedAt(mem, mem', ring[j0], p, q, q, p, ring[Suc(j0, |ring|)], ring[Pre(j0, |ring|)]);
    }
    LinkedOf(mem', r);
  }

  /**
   * At `s` the links are as they were, but for the next one of `p`, now `next`, and the previous one of `q`, now
   * `prev`.
   */
  ghost predicate Relinked(mem: Memory, mem': Memory, s: int, p: int, q: int, next: int, prev: int) {
    forall x, y :: Links(mem, s, x, y) ==> Links(mem', s, if s == p then next else x, if s == q then prev else y)
  }

  lemma {:induction false} RelinkedAt(mem: Memory, mem': Memory, s: int, p: int, q: int, next: int, prev: int, x: int,
      y: int)
    requires Relinked(mem, mem', s, p, q, next, prev) && Links(mem, s, x, y)
    ensures Links(mem', s, if s == p then next else x, if s == q then prev else y)
  {
  }

  /** Another node takes the place `k` of the list, with its links. */
  lemma {:induction false} LinkedInstead(mem: Memory, mem': Memory, ring: seq<int>, k: int, t: int)
    requires Linked(mem, ring) && 0 < k < |ring| && t !in ring
    requires forall i, j :: 0 <= i < j < |ring| ==> ring[i] != ring[j]
    requires var p, q := ring[k - 1], ring[Suc(k, |ring|)];
             && Links(mem', t, q, p)
             && forall j {:trigger ring[j]} :: 0 <= j < |ring| && j != k ==> Relinked(mem, mem', ring[j], p, q, t, t)
    ensures Linked(mem', ring[k := t])
  {
    hide Links, Relinked, Linked;
    var r, n := ring[k := t], |ring|;
    var p, q := ring[k - 1], ring[Suc(k, n)];
    forall j | 0 <= j < n ensures Links(mem', r[j], r[Suc(j, n)], r[Pre(j, n)]) {
      if j != k {
        LinksAt(mem, ring, j);
        RelinkedAt(mem, mem', ring[j], p, q, t, t, ring[Suc(j, n)], ring[Pre(j, n)]);
      }
    }
    LinkedOf(mem', r);
  }

  /** A node joins the list at its end, before the head. */
  lemma {:induction false} LinkedMore(mem: Memory, mem': Memory, ring: seq<int>, t: int)
    requires Linked(mem, ring) && |ring| > 0 && t !in ring
    requires forall i, j :: 0 <= i < j < |ring| ==> ring[i] != ring[j]
    requires var p, q := ring[|ring| - 1], ring[0];
             && Links(mem', t, q, p)
             && forall j {:trigger ring[j]} :: 0 <= j < |ring| ==> Relinked(mem, mem', ring[j], p, q, t, t)
    ensures Linked(mem', ring + [t])
  {
    hide Links, Relinked, Linked;
    var r, n := ring + [t], |ring|;
    var p, q := ring[n - 1], ring[0];
    forall j | 0 <= j <= n ensures Links(mem', r[j], r[Suc(j, n + 1)], r[Pre(j, n + 1)]) {
      if j < n {
        LinksAt(mem, ring, j);
        RelinkedAt(mem, mem', ring[j], p, q, t, t, ring[Suc(j, n)], ring[Pre(j, n)]);
      }
    }
    LinkedOf(mem', r);
  }

  // ---- writes ----

  /** Only the slots from `lo` to `hi` differ. */
  ghost predicate Within(mem: Memory, mem': Memory, lo: int, hi: int) {
    |mem'| == |mem| && forall i :: 0 <= i < |mem| && !(lo <= i < hi) ==> mem'[i] == mem[i]
  }

  /** The links of the free node at `p` change, and nothing else does. */
  ghost predicate LinkWrite(mem: Memory, mem': Memory, p: int) {
    0 <= p && p + 1 < |mem| && Within(mem, mem', p, p + 2) && Pad(mem'[p]) == Pad(mem[p]) && mem'[p].hi == mem[p].hi
  }

  ghost predicate NextWrite(mem: Memory, mem': Memory, p: int, next: int) {
    LinkWrite(mem, mem', p) && NextFnode(mem', p) == next && PrevFnode(mem', p) == PrevFnode(mem, p)
  }

  ghost predicate PrevWrite(mem: Memory, mem': Memory, q: int, prev: int) {
    LinkWrite(mem, mem', q) && PrevFnode(mem', q) == prev && NextFnode(mem', q) == NextFnode(mem, q)
  }

  /** Two link writes, as the list sees them. */
  lemma {:induction false} RelinkedBoth(mem: Memory, mem1: Memory, mem2: Memory, t: int, p: int, q: int, next: int,
      prev: int)
    requires NextWrite(mem, mem1, p, next) && PrevWrite(mem1, mem2, q, prev)
    requires t != p ==> t + 1 < p || p + 1 < t
    requires t != q ==> t + 1 < q || q + 1 < t
    ensures Relinked(mem, mem2, t, p, q, next, prev)
  {
  }

  lemma LinksAlike(mem: Memory, mem': Memory, x: int, a: int, b: int)
    requires 0 <= x && x + 1 < |mem| == |mem'| && mem[x] == mem'[x] && mem[x + 1] == mem'[x + 1]
    ensures Links(mem, x, a, b) ==> Links(mem', x, a, b)
  {
  }

  /** A link write elsewhere leaves the links at `x`. */
  lemma LinksThrough(mem: Memory, mem': Memory, x: int, a: int, b: int, p: int)
    requires LinkWrite(mem, mem', p) && Links(mem, x, a, b) && (x + 1 < p || p + 1 < x)
    ensures Links(mem', x, a, b)
  {
  }

  /** The encoded links, read apart. */
  lemma LinkParts(mem: Memory, s: int, next: int, prev: int)
    requires Links(mem, s, next, prev)
    ensures 0 <= s && s + 1 < |mem| && NextFnode(mem, s) == next && PrevFnode(mem, s) == prev
    ensures SlotAbsPos(NextBlkIdx(Idx(mem[s])), mem[s + 1].hi) == next
      && SlotAbsPos(PrevBlkIdx(Idx(mem[s])), mem[s + 1].lo) == prev
    ensures 0 <= NextBlkIdx(Idx(mem[s])) < 16 && 0 <= PrevBlkIdx(Idx(mem[s])) < 16
  {
  }

  lemma NextIsLink(mem: Memory, mem': Memory, p: int, x: int)
    requires NextWrite(mem, mem', p, x)
    ensures LinkWrite(mem, mem', p) && |mem'| == |mem|
  {
  }

  lemma PrevIsLink(mem: Memory, mem': Memory, p: int, x: int)
    requires PrevWrite(mem, mem', p, x)
    ensures LinkWrite(mem, mem', p) && |mem'| == |mem|
  {
  }

  /** The free node at `p` gets another length and keeps its links. */
  ghost predicate LenWrite(mem: Memory, mem': Memory, p: int, len: int) {
    && Within(mem, mem', p, p + len) && FreeAt(mem', p, len)
    && (forall i :: p < i < p + len - 1 ==> mem'[i] == mem[i])
    && forall a, b :: Links(mem, p, a, b) ==> Links(mem', p, a, b)
  }

  lemma LenIs(mem: Memory, mem': Memory, p: int, len: int)
    requires LenWrite(mem, mem', p, len)
    ensures Within(mem, mem', p, p + len) && FreeAt(mem', p, len) && |mem'| == |mem|
  {
  }

  lemma LenElse(mem: Memory, mem': Memory, p: int, len: int, x: int, a: int, b: int)
    requires LenWrite(mem, mem', p, len) && 0 <= x && x + 1 < |mem| && (x + 1 < p || p + len <= x)
      && Links(mem, x, a, b)
    ensures Links(mem', x, a, b) && |mem'| == |mem| && mem'[x] == mem[x] && mem'[x + 1] == mem[x + 1]
      && NextFnode(mem', x) == NextFnode(mem, x) && PrevFnode(mem', x) == PrevFnode(mem, x)
  {
  }

  /** The new free node gets its links. */
  lemma GivenLinks(mem: Memory, ma: Memory, m1: Memory, s: int, len: int, next: int, prev: int)
    requires Within(mem, ma, s, s + len) && FreeAt(ma, s, len) && 0 <= s && s + len <= |mem| && len >= MIN_NODE_SIZE
      && |m1| == |ma|
    requires forall i :: 0 <= i < |ma| && i != s && i != s + 1 ==> m1[i] == ma[i]
    requires Pad(m1[s]) == Pad(ma[s]) && m1[s].hi == ma[s].hi
    requires SlotAbsPos(NextBlkIdx(Idx(m1[s])), m1[s + 1].hi) == next
      && SlotAbsPos(PrevBlkIdx(Idx(m1[s])), m1[s + 1].lo) == prev
    ensures Within(mem, m1, s, s + len) && FreeAt(m1, s, len) && Links(m1, s, next, prev)
  {
  }

  method SetNext(mem: Memory, p: int, blk: int, off: U16) returns (m: Memory)
    requires 0 <= p && p + 1 < |mem| && 0 <= blk < 16
    ensures NextWrite(mem, m, p, SlotAbsPos(blk, off))
  {
    m := mem[p := WithIdx(mem[p], PnBlkIdx(PrevBlkIdx(Idx(mem[p])), blk))];
    m := m[p + 1 := Slot(mem[p + 1].lo, off)];
  }

  method SetPrev(mem: Memory, q: int, blk: int, off: U16) returns (m: Memory)
    requires 0 <= q && q + 1 < |mem| && 0 <= blk < 16
    ensures PrevWrite(mem, m, q, SlotAbsPos(blk, off))
  {
    m := mem[q := WithIdx(mem[q], PnBlkIdx(blk, NextBlkIdx(Idx(mem[q]))))];
    m := m[q + 1 := Slot(off, mem[q + 1].hi)];
  }

  /** set_fnode_len: the length goes into head and tail, with the guards. */
  method SetFnodeLen(mem: Memory, p: int, len: int) returns (m: Memory)
    requires 0 <= p && MIN_NODE_SIZE <= len <= BLK && p + len <= |mem|
    ensures LenWrite(mem, m, p, len)
  {
    m := mem[p := Slot(FREE_GUARD0 + Idx(mem[p]) * 256, len - 1)];
    m := m[p + len - 1 := Slot(len - 1, FREE_GUARD1)];
  }

  /** get_fnode_len: head and tail agree. */
  method GetFnodeLen(mem: Memory, p: int, ghost len: int) returns (r: int)
    requires FreeAt(mem, p, len)
    ensures r == len
  {
    assert mem[p].hi == mem[p + mem[p].hi].lo;
    r := mem[p].hi + 1;
  }

  /** Writes the links of the node `s`, whose head and tail are those of a free node already. */
  method PutLinks(mem: Memory, s: int, idx: int, prev: U16, next: U16, ghost m0: Memory, ghost len: int, ghost a: int,
      ghost b: int) returns (m: Memory)
    requires 0 <= idx < 256 && Within(m0, mem, s, s + len) && FreeAt(mem, s, len)
    requires SlotAbsPos(NextBlkIdx(idx), next) == a && SlotAbsPos(PrevBlkIdx(idx), prev) == b
    ensures Within(m0, m, s, s + len) && FreeAt(m, s, len) && Links(m, s, a, b)
  {
    m := mem[s := WithIdx(mem[s], idx)];
    m := m[s + 1 := Slot(prev, next)];
    GivenLinks(m0, mem, m, s, len, a, b);
  }

  /** The headers say what the nodes are, those in `but` aside. */
  ghost predicate StoredBut(mem: Memory, nodes: Nodes, ring: seq<int>, but: set<int>) {
    forall s :: s in nodes && s !in but ==> if s in ring then FreeAt(mem, s, nodes[s]) else BusyAt(mem, s, nodes[s])
  }

  /** What the owners of the busy nodes, those in `but` aside, have stored is untouched. */
  ghost predicate ContentKept(mem: Memory, mem': Memory, nodes: Nodes, ring: seq<int>, but: set<int>) {
    |mem'| == |mem| &&
    forall s, i ::
      s in nodes && s !in ring && s !in but && s <= i < s + nodes[s] && 0 <= i < |mem| ==> mem'[i] == mem[i]
  }

  lemma ContentOn(mem: Memory, mem1: Memory, mem2: Memory, nodes: Nodes, ring: seq<int>, but: set<int>)
    requires ContentKept(mem, mem1, nodes, ring, but) && ContentKept(mem1, mem2, nodes, ring, but)
    ensures ContentKept(mem, mem2, nodes, ring, but)
  {
  }

  /** Nodes are apart. */
  lemma NodesApart(nodes: Nodes, n: int, s: int, t: int)
    requires Tiled(nodes, n) && s in nodes && t in nodes && s != t
    ensures s + nodes[s] <= t || t + nodes[t] <= s
    ensures nodes[s] >= MIN_NODE_SIZE && nodes[t] >= MIN_NODE_SIZE && 0 <= s && 0 <= t && s + nodes[s] <= n
      && t + nodes[t] <= n
  {
  }

  lemma LinkWriteStored(mem: Memory, mem': Memory, nodes: Nodes, ring: seq<int>, but: set<int>, p: int)
    requires Tiled(nodes, |mem|) && StoredBut(mem, nodes, ring, but) && p in nodes && p in ring
      && LinkWrite(mem, mem', p)
    ensures StoredBut(mem', nodes, ring, but) && ContentKept(mem, mem', nodes, ring, but)
  {
    hide Tiled;
    forall s | s in nodes && s !in but
      ensures if s in ring then FreeAt(mem', s, nodes[s]) else BusyAt(mem', s, nodes[s])
    {
      if s != p { NodesApart(nodes, |mem|, s, p); }
    }
    forall s, i | s in nodes && s !in ring && s <= i < s + nodes[s] && 0 <= i < |mem| ensures mem'[i] == mem[i] {
      NodesApart(nodes, |mem|, s, p);
    }
  }

  /** Writes inside the node `t`. */
  lemma NodeWriteStored(mem: Memory, mem': Memory, nodes: Nodes, ring: seq<int>, but: set<int>, t: int)
    requires Tiled(nodes, |mem|) && StoredBut(mem, nodes, ring, but) && t in nodes && t in but
      && Within(mem, mem', t, t + nodes[t])
    ensures StoredBut(mem', nodes, ring, but) && ContentKept(mem, mem', nodes, ring, but)
    ensures forall s :: s in nodes && s != t ==>
        0 <= s && s + 1 < |mem| && NextFnode(mem', s) == NextFnode(mem, s) && PrevFnode(mem', s) == PrevFnode(mem, s)
  {
    hide Tiled;
    forall s | s in nodes && s != t
      ensures 0 <= s && s + 1 < |mem| && mem'[s] == mem[s] && mem'[s + 1] == mem[s + 1]
      ensures s !in but ==> if s in ring then FreeAt(mem', s, nodes[s]) else BusyAt(mem', s, nodes[s])
    {
      NodesApart(nodes, |mem|, s, t);
    }
    forall s, i | s in nodes && s !in ring && s !in but && s <= i < s + nodes[s] && 0 <= i < |mem|
      ensures mem'[i] == mem[i]
    {
      NodesApart(nodes, |mem|, s, t);
    }
  }

  // ---- cutting and joining nodes ----

  /** The node `s` is cut in two. */
  function Cut(nodes: Nodes, s: int, need: int): Nodes
    requires s in nodes
  {
    nodes[s := need][s + need := nodes[s] - need]
  }

  lemma CutTiled(nodes: Nodes, n: int, s: int, need: int)
    requires Tiled(nodes, n) && s in nodes && s != 0 && MIN_NODE_SIZE <= need && nodes[s] >= need + MIN_NODE_SIZE
    ensures Tiled(Cut(nodes, s, need), n) && s + need !in nodes
  {
    hide Preceded, Disjoint, Follows;
    if s + need in nodes { NodesApart(nodes, n, s, s + need); }
    CutPreceded(nodes, s, need);
    CutDisjoint(nodes, n, s, need);
    CutFollows(nodes, n, s, need);
  }

  lemma CutFollows(nodes: Nodes, n: int, s: int, need: int)
    requires Follows(nodes, n) && s in nodes && need != 0
    ensures Follows(Cut(nodes, s, need), n)
  {
  }

  /** The node that ends where `s` begins. */
  lemma Before(nodes: Nodes, s: int) returns (p: int)
    requires Preceded(nodes) && s in nodes && s != 0
    ensures Meets(nodes, p, s)
  {
    p :| Meets(nodes, p, s);
  }

  lemma CutPreceded(nodes: Nodes, s: int, need: int)
    requires Preceded(nodes) && s in nodes && s != 0 && s + need !in nodes
    ensures Preceded(Cut(nodes, s, need))
  {
    var c := Cut(nodes, s, need);
    forall x | x in c && x != 0 ensures exists p :: Meets(c, p, x) {
      if x == s + need {
        assert Meets(c, s, x);
      } else {
        var p :| Meets(nodes, p, x);
        assert Meets(c, if p == s then s + need else p, x);
      }
    }
  }

  lemma CutDisjoint(nodes: Nodes, n: int, s: int, need: int)
    requires Tiled(nodes, n) && s in nodes && s + need !in nodes && 0 < need < nodes[s]
    ensures Disjoint(Cut(nodes, s, need))
  {
    hide Tiled;
    var c := Cut(nodes, s, need);
    forall x, y | x in c && y in c && x < y ensures x + c[x] <= y {
      var x0, y0 := if x == s + need then s else x, if y == s + need then s else y;
      if x0 != y0 { NodesApart(nodes, n, x0, y0); }
    }
  }

  /** The node `p` takes in the one after it. */
  function Join(nodes: Nodes, p: int): Nodes {
    if p in nodes && p + nodes[p] in nodes then
      var q := p + nodes[p];
      (nodes - {q})[p := nodes[p] + nodes[q]]
    else
      nodes
  }

  lemma JoinTiled(nodes: Nodes, n: int, p: int)
    requires Tiled(nodes, n) && p in nodes && p != 0 && p + nodes[p] in nodes && n <= BLK
    ensures Tiled(Join(nodes, p), n) && p + nodes[p] > p
  {
    hide Preceded, Disjoint, Follows;
    JoinPreceded(nodes, n, p);
    JoinDisjoint(nodes, n, p);
    JoinFollows(nodes, n, p);
  }

  lemma JoinPreceded(nodes: Nodes, n: int, p: int)
    requires Tiled(nodes, n) && p in nodes && p + nodes[p] in nodes
    ensures Preceded(Join(nodes, p))
  {
    hide Preceded, Disjoint, Follows;
    var q := p + nodes[p];
    var c := Join(nodes, p);
    forall x | x in c && x != 0 ensures exists r :: Meets(c, r, x) {
      var r := Before(nodes, x);
      NodesApart(nodes, n, p, q);
      assert x != q;
      assert r != p;
      assert Meets(c, if r == q then p else r, x);
    }
    PrecededOf(c);
  }

  lemma PrecededOf(nodes: Nodes)
    requires forall s :: s in nodes && s != 0 ==> exists p :: Meets(nodes, p, s)
    ensures Preceded(nodes)
  {
  }

  lemma JoinDisjoint(nodes: Nodes, n: int, p: int)
    requires Tiled(nodes, n) && p in nodes && p + nodes[p] in nodes
    ensures Disjoint(Join(nodes, p))
  {
    hide Tiled;
    var q := p + nodes[p];
    var c := Join(nodes, p);
    forall x, y | x in c && y in c && x < y ensures x + c[x] <= y {
      NodesApart(nodes, n, x, y);
      if x == p { NodesApart(nodes, n, q, y); }
    }
  }

  lemma JoinFollows(nodes: Nodes, n: int, p: int)
    requires Tiled(nodes, n) && p in nodes && p + nodes[p] in nodes
    ensures Follows(Join(nodes, p), n)
  {
    assert Follows(nodes, n);
    hide Tiled;
    var q := p + nodes[p];
    var c := Join(nodes, p);
    forall x | x in c ensures x + c[x] == n || x + c[x] in c {
      if x != p { NodesApart(nodes, n, x, p); }
    }
  }
}
