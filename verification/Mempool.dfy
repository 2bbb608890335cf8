/** A pool of chunks behind handles: unlocked chunks may slide up so that free space collects in handle 0. */
module HandlePool {
  import opened PoolChain

  /** A chunk header as it lies in the arena. */
  datatype Head = Head(guard0: int, next: Addr, prev: Addr, handle: int, guard1: int)

  /** An entry of the handle table. */
  datatype Handle = Handle(ptr: Addr, status: int, size: int)

  type Int32 = x: int | -0x8000_0000 <= x < 0x8000_0000

  type Heap = map<Addr, Head>

  function HeadOf(b: Chain, i: int): Head
    requires 0 <= i < |b|
  {
    Head(b[i].sig, if i + 1 < |b| then b[i + 1].at else NULL, if i > 0 then b[i - 1].at else NULL, b[i].handle,
          b[i].sig)
  }

  function HandleOf(k: Block): Handle {
    Handle(k.at, k.sig, k.size)
  }

  /** Every block has its header in the arena, linked both ways to its neighbours'. */
  ghost predicate Heads(b: Chain, hdrs: Heap) {
    forall i :: 0 <= i < |b| ==> b[i].at in hdrs && hdrs[b[i].at] == HeadOf(b, i)
  }

  /** The handle table lists exactly the blocks. */
  ghost predicate Table(b: Chain, handles: seq<Handle>) {
    && (forall i :: 0 <= i < |b| ==> 0 <= b[i].handle < |handles| && handles[b[i].handle] == HandleOf(b[i]))
    && (forall h :: 0 <= h < |handles| && handles[h].ptr != NULL ==> exists i :: 0 <= i < |b| && b[i].handle == h)
  }

  /** The arena holds the bytes of every live block. */
  ghost predicate Bytes(b: Chain, mem: seq<bv8>) {
    forall i :: 0 <= i < |b| && Live(b[i]) ==>
      0 <= b[i].at + HEAD <= End(b[i]) <= |mem| && mem[b[i].at + HEAD..End(b[i])] == b[i].data
  }

  /** The headers that bytes written from `lo` to `hi` leave whole. */
  function Spared(hdrs: Heap, lo: Addr, hi: Addr): Heap {
    map q | q in hdrs && (q + HEAD <= lo || hi <= q) :: hdrs[q]
  }

  /** Writing from `lo` to `hi` leaves the bytes elsewhere. */
  ghost predicate Elsewhere(mem: seq<bv8>, mem': seq<bv8>, lo: Addr, hi: Addr) {
    && 0 <= lo <= hi <= |mem| == |mem'|
    && mem'[..lo] == mem[..lo] && mem'[hi..] == mem[hi..]
  }

  lemma SliceKept(mem: seq<bv8>, mem': seq<bv8>, lo: Addr, hi: Addr, a: Addr, z: Addr)
    requires Elsewhere(mem, mem', lo, hi) && 0 <= a <= z <= |mem| && (z <= lo || hi <= a)
    ensures mem'[a..z] == mem[a..z]
  {
    if z <= lo {
      assert mem'[a..z] == mem'[..lo][a..z] && mem[a..z] == mem[..lo][a..z];
    } else {
      forall k | a <= k < z ensures mem'[k] == mem[k] {
        assert mem'[hi..][k - hi] == mem[hi..][k - hi];
      }
    }
  }

  lemma HeadAt(b: Chain, hdrs: Heap, i: int)
    requires Heads(b, hdrs) && 0 <= i < |b|
    ensures b[i].at in hdrs && hdrs[b[i].at] == HeadOf(b, i)
  {
  }

  lemma EntryAt(b: Chain, handles: seq<Handle>, i: int)
    requires Table(b, handles) && 0 <= i < |b|
    ensures 0 <= b[i].handle < |handles| && handles[b[i].handle] == HandleOf(b[i])
  {
  }

  lemma BlockAt(b: Chain, handles: seq<Handle>, h: int) returns (i: int)
    requires Table(b, handles) && 0 <= h < |handles| && handles[h].ptr != NULL
    ensures 0 <= i < |b| && b[i].handle == h && handles[h] == HandleOf(b[i])
  {
    i :| 0 <= i < |b| && b[i].handle == h;
  }

  lemma BytesAt(b: Chain, mem: seq<bv8>, i: int)
    requires Bytes(b, mem) && 0 <= i < |b| && Live(b[i])
    ensures 0 <= b[i].at + HEAD <= End(b[i]) <= |mem| && mem[b[i].at + HEAD..End(b[i])] == b[i].data
  {
  }

  /** Blocks are told apart by their addresses and by their handles. */
  lemma Apart2(b: Chain, total: int, i: int, j: int)
    requires Tiled(b, total) && 0 <= i < |b| && 0 <= j < |b| && i != j
    ensures b[i].at != b[j].at && b[i].handle != b[j].handle
  {
    PairOf(b, total, if i < j then i else j, if i < j then j else i);
    BlockOf(b, total, i);
    BlockOf(b, total, j);
  }

  // ---- joining ----

  /** The headers once the block `i` has taken in its successor. */
  ghost predicate JoinedHeads(b: Chain, i: int, hdrs: Heap, hdrs': Heap)
    requires 0 <= i < |b| - 1
  {
    && hdrs'.Keys == hdrs.Keys
    && forall q :: q in hdrs ==> (hdrs'[q] ==
         if q == b[i].at then hdrs[q].(next := if i + 2 < |b| then b[i + 2].at else NULL)
         else if q == b[i + 1].at then Head(0, NULL, NULL, hdrs[q].handle, 0)
         else if i + 2 < |b| && q == b[i + 2].at then hdrs[q].(prev := b[i].at)
         else hdrs[q])
  }

  lemma JoinHeadAt(b: Chain, i: int, hdrs: Heap, hdrs': Heap, total: int, j: int)
    requires Tiled(b, total) && Heads(b, hdrs) && FreePair(b, i) && JoinedHeads(b, i, hdrs, hdrs') && 0 <= j < |b| - 1
    ensures Join(b, i)[j].at in hdrs' && hdrs'[Join(b, i)[j].at] == HeadOf(Join(b, i), j)
  {
    hide Tiled, Heads;
    var j0 := if j <= i then j else j + 1;
    HeadAt(b, hdrs, j0);
    if j0 != i { Apart2(b, total, j0, i); }
    Apart2(b, total, j0, i + 1);
    if i + 2 < |b| && j0 != i + 2 { Apart2(b, total, j0, i + 2); }
  }

  lemma JoinHeads(b: Chain, i: int, hdrs: Heap, hdrs': Heap, total: int)
    requires Tiled(b, total) && Heads(b, hdrs) && FreePair(b, i) && JoinedHeads(b, i, hdrs, hdrs')
    ensures Heads(Join(b, i), hdrs')
  {
    forall j | 0 <= j < |b| - 1 ensures Join(b, i)[j].at in hdrs' && hdrs'[Join(b, i)[j].at] == HeadOf(Join(b, i), j) {
      JoinHeadAt(b, i, hdrs, hdrs', total, j);
    }
  }

  lemma JoinEntryAt(b: Chain, i: int, hs: seq<Handle>, hs': seq<Handle>, total: int, j: int)
    requires Tiled(b, total) && Table(b, hs) && FreePair(b, i) && 0 <= j < |b| - 1
    requires 0 <= b[i].handle < |hs| && 0 <= b[i + 1].handle < |hs|
    requires hs' == hs[b[i].handle := hs[b[i].handle].(size := hs[b[i].handle].size + hs[b[i + 1].handle].size + HEAD)]
                       [b[i + 1].handle := hs[b[i + 1].handle].(ptr := NULL)]
    ensures var k := Join(b, i)[j]; 0 <= k.handle < |hs'| && hs'[k.handle] == HandleOf(k)
  {
    hide Tiled, Table;
    EntryAt(b, hs, i);
    EntryAt(b, hs, i + 1);
    var j0 := if j <= i then j else j + 1;
    EntryAt(b, hs, j0);
    if j0 != i { Apart2(b, total, j0, i); }
    Apart2(b, total, j0, i + 1);
  }

  lemma JoinTable(b: Chain, i: int, hs: seq<Handle>, total: int)
    requires Tiled(b, total) && Table(b, hs) && FreePair(b, i)
    ensures var l, r := b[i].handle, b[i + 1].handle;
            0 <= l < |hs| && 0 <= r < |hs|
            && Table(Join(b, i), hs[l := hs[l].(size := hs[l].size + hs[r].size + HEAD)][r := hs[r].(ptr := NULL)])
  {
    EntryAt(b, hs, i);
    EntryAt(b, hs, i + 1);
    hide Tiled;
    var l, r := b[i].handle, b[i + 1].handle;
    var hs' := hs[l := hs[l].(size := hs[l].size + hs[r].size + HEAD)][r := hs[r].(ptr := NULL)];
    Apart2(b, total, i, i + 1);
    forall j | 0 <= j < |b| - 1
      ensures 0 <= Join(b, i)[j].handle < |hs'| && hs'[Join(b, i)[j].handle] == HandleOf(Join(b, i)[j])
    {
      JoinEntryAt(b, i, hs, hs', total, j);
    }
    forall h | 0 <= h < |hs'| && hs'[h].ptr != NULL ensures exists j :: 0 <= j < |b| - 1 && Join(b, i)[j].handle == h {
      var j := BlockAt(b, hs, h);
      StillThere(b, i, j);
    }
  }

  lemma StillThere(b: Chain, i: int, j: int)
    requires 0 <= i < |b| - 1 && 0 <= j < |b| && j != i + 1
    ensures exists k :: 0 <= k < |b| - 1 && Join(b, i)[k].handle == b[j].handle
  {
    assert Join(b, i)[if j <= i then j else j - 1].handle == b[j].handle;
  }

  lemma JoinBytes(b: Chain, i: int, mem: seq<bv8>)
    requires Bytes(b, mem) && FreePair(b, i)
    ensures Bytes(Join(b, i), mem)
  {
    var c := Join(b, i);
    forall j | 0 <= j < |c| && Live(c[j])
      ensures 0 <= c[j].at + HEAD <= End(c[j]) <= |mem| && mem[c[j].at + HEAD..End(c[j])] == c[j].data
    {
      BytesAt(b, mem, if j <= i then j else j + 1);
    }
  }

  // ---- sliding ----

  /** The headers once the block `i` has changed places with the free block after it. */
  ghost predicate SlidHeads(b: Chain, i: int, hdrs: Heap, hdrs': Heap)
    requires 0 <= i < |b| - 1
  {
    var new_ := b[i].at + HEAD + b[i + 1].size;
    && new_ in hdrs'
    && hdrs'[new_] == Head(b[i].sig, if i + 2 < |b| then b[i + 2].at else NULL, b[i].at, b[i].handle, b[i].sig)
    && b[i].at in hdrs'
    && hdrs'[b[i].at] == Head(MEM_FREE_SIG, new_, if i > 0 then b[i - 1].at else NULL, b[i + 1].handle, MEM_FREE_SIG)
    && forall q :: q in hdrs && q != b[i].at && (q < b[i].at || End(b[i + 1]) <= q) ==> (q in hdrs' && hdrs'[q] ==
         if i + 2 < |b| && q == b[i + 2].at then hdrs[q].(prev := new_) else hdrs[q])
  }

  lemma SlideHeadAt(b: Chain, i: int, hdrs: Heap, hdrs': Heap, total: int, j: int)
    requires Tiled(b, total) && Heads(b, hdrs) && Slidable(b, i) && SlidHeads(b, i, hdrs, hdrs') && 0 <= j < |b|
    ensures Slide(b, i)[j].at in hdrs' && hdrs'[Slide(b, i)[j].at] == HeadOf(Slide(b, i), j)
  {
    hide Tiled, Heads;
    if j != i && j != i + 1 {
      HeadAt(b, hdrs, j);
      BlockOf(b, total, j);
      BlockOf(b, total, i);
      BlockOf(b, total, i + 1);
      PairOf(b, total, i, i + 1);
      if j < i { PairOf(b, total, j, i); } else { PairOf(b, total, i + 1, j); }
      if i + 2 < |b| && j != i + 2 { Apart2(b, total, j, i + 2); }
      assert b[j].at in hdrs' && hdrs'[b[j].at] == if j == i + 2
          then hdrs[b[j].at].(prev := b[i].at + HEAD + b[i + 1].size) else hdrs[b[j].at];
    }
  }

  lemma SlideHeads(b: Chain, i: int, hdrs: Heap, hdrs': Heap, total: int)
    requires Tiled(b, total) && Heads(b, hdrs) && Slidable(b, i) && SlidHeads(b, i, hdrs, hdrs')
    ensures Heads(Slide(b, i), hdrs')
  {
    forall j | 0 <= j < |b| ensures Slide(b, i)[j].at in hdrs' && hdrs'[Slide(b, i)[j].at] == HeadOf(Slide(b, i), j) {
      SlideHeadAt(b, i, hdrs, hdrs', total, j);
    }
  }

  lemma SlideTable(b: Chain, i: int, hs: seq<Handle>, total: int)
    requires Tiled(b, total) && Table(b, hs) && Slidable(b, i)
    ensures var k, f := b[i].handle, b[i + 1].handle;
            0 <= k < |hs| && 0 <= f < |hs|
            && Table(Slide(b, i), hs[f := hs[f].(ptr := b[i].at)][k := hs[k].(ptr := b[i].at + HEAD + b[i + 1].size)])
  {
    hide Tiled;
    EntryAt(b, hs, i);
    EntryAt(b, hs, i + 1);
    var k, f := b[i].handle, b[i + 1].handle;
    var hs' := hs[f := hs[f].(ptr := b[i].at)][k := hs[k].(ptr := b[i].at + HEAD + b[i + 1].size)];
    var c := Slide(b, i);
    Apart2(b, total, i, i + 1);
    forall j | 0 <= j < |c| ensures 0 <= c[j].handle < |hs'| && hs'[c[j].handle] == HandleOf(c[j]) {
      EntryAt(b, hs, j);
      if j != i { Apart2(b, total, j, i); }
      if j != i + 1 { Apart2(b, total, j, i + 1); }
    }
    BlockOf(b, total, i);
    BlockOf(b, total, i + 1);
    forall h | 0 <= h < |hs'| && hs'[h].ptr != NULL ensures exists j :: 0 <= j < |c| && c[j].handle == h {
      var j := BlockAt(b, hs, h);
      assert c[if j == i then i + 1 else if j == i + 1 then i else j].handle == h;
    }
  }

  lemma SlideBytes(b: Chain, i: int, mem: seq<bv8>, mem': seq<bv8>, total: int)
    requires Tiled(b, total) && Bytes(b, mem) && Slidable(b, i)
    requires Elsewhere(mem, mem', b[i].at + HEAD, End(b[i + 1]))
    requires mem'[End(b[i + 1]) - b[i].size..End(b[i + 1])] == b[i].data
    ensures Bytes(Slide(b, i), mem')
  {
    hide Tiled;
    var c := Slide(b, i);
    PairOf(b, total, i, i + 1);
    BlockOf(b, total, i);
    BlockOf(b, total, i + 1);
    forall j | 0 <= j < |c| && Live(c[j])
      ensures 0 <= c[j].at + HEAD <= End(c[j]) <= |mem'| && mem'[c[j].at + HEAD..End(c[j])] == c[j].data
    {
      if j != i + 1 {
        BytesAt(b, mem, j);
        if j < i { PairOf(b, total, j, i); } else { PairOf(b, total, i + 1, j); }
        BlockOf(b, total, j);
        SliceKept(mem, mem', b[i].at + HEAD, End(b[i + 1]), b[j].at + HEAD, End(b[j]));
      }
    }
  }

  // ---- splitting ----

  /** The headers once a piece at `p` has been cut off the end of the block `i`. */
  ghost predicate SplitHeads(b: Chain, i: int, p: Addr, h: int, hdrs: Heap, hdrs': Heap)
    requires 0 <= i < |b|
  {
    && p in hdrs' && hdrs'[p] == Head(MEM_ALOC_SIG, if i + 1 < |b| then b[i + 1].at else NULL, b[i].at, h, MEM_ALOC_SIG)
    && forall q :: q in hdrs && (q <= b[i].at || End(b[i]) <= q) ==> (q in hdrs' && hdrs'[q] ==
         if q == b[i].at then hdrs[q].(next := p)
         else if i + 1 < |b| && q == b[i + 1].at then hdrs[q].(prev := p) else hdrs[q])
  }

  lemma SplitHeadAt(b: Chain, i: int, size: int, h: int, data: seq<bv8>, hdrs: Heap, hdrs': Heap, total: int, j: int)
    requires Tiled(b, total) && Heads(b, hdrs) && Splittable(b, i, size, h) && 0 <= j <= |b|
    requires SplitHeads(b, i, b[i].at + (b[i].size - size), h, hdrs, hdrs')
    ensures var c := Split(b, i, size, h, data); c[j].at in hdrs' && hdrs'[c[j].at] == HeadOf(c, j)
  {
    hide Tiled, Heads;
    var j0 := if j <= i then j else j - 1;
    HeadAt(b, hdrs, j0);
    BlockOf(b, total, i);
    if j0 < i { PairOf(b, total, j0, i); BlockOf(b, total, j0); }
    if j0 > i { PairOf(b, total, i, j0); }
    if i + 1 < |b| && j0 != i + 1 { Apart2(b, total, j0, i + 1); }
  }

  lemma SplitHeadsAll(b: Chain, i: int, size: int, h: int, data: seq<bv8>, hdrs: Heap, hdrs': Heap, total: int)
    requires Tiled(b, total) && Heads(b, hdrs) && Splittable(b, i, size, h)
    requires SplitHeads(b, i, b[i].at + (b[i].size - size), h, hdrs, hdrs')
    ensures Heads(Split(b, i, size, h, data), hdrs')
  {
    var c := Split(b, i, size, h, data);
    forall j | 0 <= j < |c| ensures c[j].at in hdrs' && hdrs'[c[j].at] == HeadOf(c, j) {
      SplitHeadAt(b, i, size, h, data, hdrs, hdrs', total, j);
    }
  }

  lemma SplitEntry(b: Chain, i: int, size: int, h: int, data: seq<bv8>, hs: seq<Handle>, total: int, j: int)
    requires Tiled(b, total) && Table(b, hs) && Splittable(b, i, size, h) && 0 <= h < |hs| && 0 <= j <= |b|
    ensures var f := b[i].handle; var p := b[i].at + (b[i].size - size); var k := Split(b, i, size, h, data)[j];
            && 0 <= f < |hs| && 0 <= k.handle < |hs|
            && hs[h := Handle(p, MEM_ALOC_SIG, size)][f := hs[f].(size := hs[f].size - (size + HEAD))][k.handle]
                 == HandleOf(k)
  {
    hide Tiled, Table;
    var j0 := if j <= i then j else j - 1;
    EntryAt(b, hs, i);
    EntryAt(b, hs, j0);
    if j0 != i { Apart2(b, total, j0, i); }
  }

  lemma SplitTable(b: Chain, i: int, size: int, h: int, data: seq<bv8>, hs: seq<Handle>, total: int)
    requires Tiled(b, total) && Table(b, hs) && Splittable(b, i, size, h) && 0 <= h < |hs|
    ensures var f := b[i].handle; var p := b[i].at + (b[i].size - size);
            0 <= f < |hs| && Table(Split(b, i, size, h, data),
                hs[h := Handle(p, MEM_ALOC_SIG, size)][f := hs[f].(size := hs[f].size - (size + HEAD))])
  {
    hide Tiled;
    EntryAt(b, hs, i);
    var f, p := b[i].handle, b[i].at + (b[i].size - size);
    var hs' := hs[h := Handle(p, MEM_ALOC_SIG, size)][f := hs[f].(size := hs[f].size - (size + HEAD))];
    var c := Split(b, i, size, h, data);
    forall j | 0 <= j < |c| ensures 0 <= c[j].handle < |hs'| && hs'[c[j].handle] == HandleOf(c[j]) {
      SplitEntry(b, i, size, h, data, hs, total, j);
    }
    forall g | 0 <= g < |hs'| && hs'[g].ptr != NULL ensures exists j :: 0 <= j < |c| && c[j].handle == g {
      if g == h {
        assert c[i + 1].handle == g;
      } else {
        var j := BlockAt(b, hs, g);
        assert c[if j <= i then j else j + 1].handle == g;
      }
    }
  }

  lemma SplitBytes(b: Chain, i: int, size: int, h: int, mem: seq<bv8>, mem': seq<bv8>, total: int)
    requires Tiled(b, total) && Bytes(b, mem) && Splittable(b, i, size, h) && |mem| == total
    requires Elsewhere(mem, mem', b[i].at + (b[i].size - size), b[i].at + (b[i].size - size) + HEAD)
    ensures 0 <= End(b[i]) - size <= End(b[i]) <= |mem'|
    ensures Bytes(Split(b, i, size, h, mem'[End(b[i]) - size..End(b[i])]), mem')
  {
    hide Tiled;
    BlockOf(b, total, i);
    var lo := b[i].at + (b[i].size - size);
    var c := Split(b, i, size, h, mem'[End(b[i]) - size..End(b[i])]);
    forall j | 0 <= j < |c| && Live(c[j])
      ensures 0 <= c[j].at + HEAD <= End(c[j]) <= |mem'| && mem'[c[j].at + HEAD..End(c[j])] == c[j].data
    {
      if j != i + 1 {
        var j0 := if j <= i then j else j - 1;
        BytesAt(b, mem, j0);
        if j0 < i { PairOf(b, total, j0, i); } else { PairOf(b, total, i, j0); }
        BlockOf(b, total, j0);
        SliceKept(mem, mem', lo, lo + HEAD, b[j0].at + HEAD, End(b[j0]));
      }
    }
  }

  // ---- changing the state of one block ----

  lemma BecomesHeads(b: Chain, i: int, sig: int, data: seq<bv8>, hdrs: Heap, total: int)
    requires Tiled(b, total) && Heads(b, hdrs) && 0 <= i < |b|
    ensures b[i].at in hdrs
      && Heads(Becomes(b, i, sig, data), hdrs[b[i].at := hdrs[b[i].at].(guard0 := sig, guard1 := sig)])
  {
    hide Tiled;
    var c := Becomes(b, i, sig, data);
    HeadAt(b, hdrs, i);
    var hdrs' := hdrs[b[i].at := hdrs[b[i].at].(guard0 := sig, guard1 := sig)];
    forall j | 0 <= j < |c| ensures c[j].at in hdrs' && hdrs'[c[j].at] == HeadOf(c, j) {
      HeadAt(b, hdrs, j);
      if j != i { Apart2(b, total, i, j); }
    }
  }

  lemma BecomesTable(b: Chain, i: int, sig: int, data: seq<bv8>, hs: seq<Handle>, total: int)
    requires Tiled(b, total) && Table(b, hs) && 0 <= i < |b|
    ensures 0 <= b[i].handle < |hs|
      && Table(Becomes(b, i, sig, data), hs[b[i].handle := hs[b[i].handle].(status := sig)])
  {
    hide Tiled;
    var c := Becomes(b, i, sig, data);
    EntryAt(b, hs, i);
    var hs' := hs[b[i].handle := hs[b[i].handle].(status := sig)];
    forall j | 0 <= j < |c| ensures 0 <= c[j].handle < |hs'| && hs'[c[j].handle] == HandleOf(c[j]) {
      EntryAt(b, hs, j);
      if j != i { Apart2(b, total, i, j); }
    }
    forall h | 0 <= h < |hs'| && hs'[h].ptr != NULL ensures exists j :: 0 <= j < |c| && c[j].handle == h {
      var j := BlockAt(b, hs, h);
      assert c[j].handle == h;
    }
  }

  lemma BecomesBytes(b: Chain, i: int, sig: int, data: seq<bv8>, mem: seq<bv8>)
    requires Bytes(b, mem) && 0 <= i < |b|
    requires sig != MEM_FREE_SIG ==> 0 <= b[i].at + HEAD <= End(b[i]) <= |mem| && data == mem[b[i].at + HEAD..End(b[i])]
    ensures Bytes(Becomes(b, i, sig, data), mem)
  {
    var c := Becomes(b, i, sig, data);
    forall j | 0 <= j < |c| && Live(c[j])
      ensures 0 <= c[j].at + HEAD <= End(c[j]) <= |mem| && mem[c[j].at + HEAD..End(c[j])] == c[j].data
    {
      if j != i { BytesAt(b, mem, j); }
    }
  }

  // ---- all of it together ----

  /** The arena and the handle table represent the chain. */
  ghost predicate Rep(b: Chain, hdrs: Heap, hs: seq<Handle>, mem: seq<bv8>) {
    Tiled(b, |mem|) && Heads(b, hdrs) && Table(b, hs) && Bytes(b, mem)
  }

  /** What the arena and the table hold for one block. */
  lemma RepAt(b: Chain, hdrs: Heap, hs: seq<Handle>, mem: seq<bv8>, i: int)
    requires Rep(b, hdrs, hs, mem) && 0 <= i < |b|
    ensures Sound(b[i], |mem|) && (i == 0 <==> b[i].handle == 0) && (i == 0 ==> b[i].at == 0 && !Live(b[i]))
    ensures b[i].at in hdrs && hdrs[b[i].at] == HeadOf(b, i)
    ensures 0 <= b[i].handle < |hs| && hs[b[i].handle] == HandleOf(b[i])
    ensures Live(b[i]) ==> mem[b[i].at + HEAD..End(b[i])] == b[i].data
  {
    BlockOf(b, |mem|, i);
    BlockOf(b, |mem|, 0);
    if i > 0 { Apart2(b, |mem|, 0, i); }
  }

  /** The block of a handle in use. */
  lemma RepOf(b: Chain, hdrs: Heap, hs: seq<Handle>, mem: seq<bv8>, h: int) returns (i: int)
    requires Rep(b, hdrs, hs, mem) && 0 <= h < |hs| && hs[h].ptr != NULL
    ensures 0 <= i < |b| && b[i].handle == h
  {
    i := BlockAt(b, hs, h);
  }

  lemma RepTiled(b: Chain, hdrs: Heap, hs: seq<Handle>, mem: seq<bv8>)
    requires Rep(b, hdrs, hs, mem)
    ensures Tiled(b, |mem|) && |b| > 0 && Table(b, hs)
  {
  }

  lemma RepBecomes(b: Chain, hdrs: Heap, hs: seq<Handle>, mem: seq<bv8>, i: int, sig: int, data: seq<bv8>)
    requires Rep(b, hdrs, hs, mem) && 0 < i < |b| && sig in {MEM_FREE_SIG, MEM_ALOC_SIG, MEM_LOCK_SIG}
    requires |data| == if sig != MEM_FREE_SIG then b[i].size else 0
    requires sig != MEM_FREE_SIG ==> 0 <= b[i].at + HEAD <= End(b[i]) <= |mem| && data == mem[b[i].at + HEAD..End(b[i])]
    ensures b[i].at in hdrs && 0 <= b[i].handle < |hs|
    ensures Rep(Becomes(b, i, sig, data), hdrs[b[i].at := hdrs[b[i].at].(guard0 := sig, guard1 := sig)],
          hs[b[i].handle := hs[b[i].handle].(status := sig)], mem)
  {
    hide Tiled, Heads, Table, Bytes, SplitHeads, SlidHeads, JoinedHeads;
    BecomesTiled(b, i, sig, data, |mem|);
    BecomesHeads(b, i, sig, data, hdrs, |mem|);
    BecomesTable(b, i, sig, data, hs, |mem|);
    BecomesBytes(b, i, sig, data, mem);
  }

  lemma RepJoin(b: Chain, hdrs: Heap, hs: seq<Handle>, mem: seq<bv8>, i: int, hdrs': Heap)
    requires Rep(b, hdrs, hs, mem) && FreePair(b, i) && JoinedHeads(b, i, hdrs, hdrs')
    ensures var l, r := b[i].handle, b[i + 1].handle;
            && 0 <= l < |hs| && 0 <= r < |hs|
            && Rep(Join(b, i), hdrs', hs[l := hs[l].(size := hs[l].size + hs[r].size + HEAD)][r := hs[r].(ptr := NULL)],
                   mem)
  {
    hide Tiled, Heads, Table, Bytes, SplitHeads, SlidHeads, JoinedHeads;
    JoinTiled(b, i, |mem|);
    JoinHeads(b, i, hdrs, hdrs', |mem|);
    JoinTable(b, i, hs, |mem|);
    JoinBytes(b, i, mem);
  }

  lemma RepSlide(b: Chain, hdrs: Heap, hs: seq<Handle>, mem: seq<bv8>, i: int, hdrs': Heap, mem': seq<bv8>)
    requires Rep(b, hdrs, hs, mem) && Slidable(b, i) && SlidHeads(b, i, hdrs, hdrs')
    requires Elsewhere(mem, mem', b[i].at + HEAD, End(b[i + 1]))
    requires mem'[End(b[i + 1]) - b[i].size..End(b[i + 1])] == b[i].data
    ensures i > 0
    ensures var k, f := b[i].handle, b[i + 1].handle;
            && 0 <= k < |hs| && 0 <= f < |hs|
            && Rep(Slide(b, i), hdrs',
                   hs[f := hs[f].(ptr := b[i].at)][k := hs[k].(ptr := b[i].at + HEAD + b[i + 1].size)], mem')
  {
    hide Tiled, Heads, Table, Bytes, SplitHeads, SlidHeads, JoinedHeads;
    SlideTiled(b, i, |mem|);
    SlideHeads(b, i, hdrs, hdrs', |mem|);
    SlideTable(b, i, hs, |mem|);
    SlideBytes(b, i, mem, mem', |mem|);
  }

  lemma RepSplit(b: Chain, hdrs: Heap, hs: seq<Handle>, mem: seq<bv8>, i: int, size: int, h: int, hdrs': Heap,
      mem': seq<bv8>)
    requires Rep(b, hdrs, hs, mem) && Splittable(b, i, size, h) && 0 <= h < |hs|
    requires SplitHeads(b, i, b[i].at + (b[i].size - size), h, hdrs, hdrs')
    requires Elsewhere(mem, mem', b[i].at + (b[i].size - size), b[i].at + (b[i].size - size) + HEAD)
    ensures var f := b[i].handle; var p := b[i].at + (b[i].size - size);
            && 0 <= End(b[i]) - size <= End(b[i]) <= |mem'| && 0 <= f < |hs|
            && Rep(Split(b, i, size, h, mem'[End(b[i]) - size..End(b[i])]), hdrs',
                   hs[h := Handle(p, MEM_ALOC_SIG, size)][f := hs[f].(size := hs[f].size - (size + HEAD))], mem')
  {
    hide Tiled, Heads, Table, Bytes, SplitHeads, SlidHeads, JoinedHeads;
    SplitBytes(b, i, size, h, mem, mem', |mem|);
    var data := mem'[End(b[i]) - size..End(b[i])];
    SplitTiled(b, i, size, h, data, |mem|);
    SplitHeadsAll(b, i, size, h, data, hdrs, hdrs', |mem|);
    SplitTable(b, i, size, h, data, hs, |mem|);
  }

  // ---- merging a free block with its neighbours ----

  predicate PrevFree(b: Chain, i: int) {
    0 < i < |b| && !Live(b[i - 1])
  }

  predicate NextFree(b: Chain, i: int) {
    0 <= i < |b| - 1 && !Live(b[i + 1])
  }

  function MergedPrev(b: Chain, i: int): Chain {
    if PrevFree(b, i) then Join(b, i - 1) else b
  }

  /** Where the block `i` is after merging with its predecessor. */
  function Into(b: Chain, i: int): int {
    if PrevFree(b, i) then i - 1 else i
  }

  function MergedNext(b: Chain, i: int): Chain {
    if NextFree(b, i) then Join(b, i) else b
  }

  function Merged(b: Chain, i: int): Chain {
    MergedNext(MergedPrev(b, i), Into(b, i))
  }

  /** Merging a block that was the only one with free neighbours leaves none. */
  lemma MergedApart(b: Chain, i: int)
    requires 0 <= i < |b| && !Live(b[i]) && ApartBut(b, i)
    ensures Apart(Merged(b, i))
  {
    var c, k := MergedPrev(b, i), Into(b, i);
    assert forall j :: FreePair(c, j) ==> FreePair(b, if j < k then j else j + (i - k));
    forall j ensures !FreePair(Merged(b, i), j) {
      assert !FreePair(c, if j < k then j else j + 1) || NextFree(c, k) || j == k || j == k - 1;
    }
  }

  /** The best fragment for `size` bytes: a smallest other than handle 0 that is large enough, else handle 0. */
  ghost predicate Best(b: Chain, from: int, size: int) {
    && 0 <= from < |b| && !Live(b[from])
    && (if from == 0 then b[0].size >= size + HEAD else b[from].size >= size)
    && forall i :: 0 < i < |b| && !Live(b[i]) && b[i].size >= size ==> from != 0 && b[from].size <= b[i].size
  }

  /** Only the state of the chunk under `handle` has changed. */
  ghost predicate Marked(b: Chain, c: Chain, handle: int, was: int, sig: int) {
    exists i :: 0 <= i < |b| && b[i].handle == handle && b[i].sig == was && c == b[i := b[i].(sig := sig)]
  }

  /** The chunk under `handle` is free, and merged with its free neighbours. */
  ghost predicate GivenBack(b: Chain, c: Chain, handle: int) {
    exists i :: 0 <= i < |b| && b[i].handle == handle && Live(b[i]) && c == Merged(Becomes(b, i, MEM_FREE_SIG, []), i)
  }

  /** The allocation took a smallest fragment that is large enough, or the end of handle 0. */
  ghost predicate CarvedOut(b: Chain, c: Chain, size: int, nosplit: int, h: int) {
    exists from, data :: Best(b, from, size) && Carved(b, c, from, size, nosplit, h, data)
  }

  /** A fragment is used as it is unless it leaves more than `nosplit` bytes over. */
  predicate Whole(b: Chain, from: int, size: int, nosplit: int)
    requires 0 <= from < |b|
  {
    from != 0 && size >= b[from].size - nosplit
  }

  /** What an allocation does to the chain. */
  ghost predicate Carved(b: Chain, c: Chain, from: int, size: int, nosplit: int, h: int, data: seq<bv8>)
    requires 0 <= from < |b|
  {
    if Whole(b, from, size, nosplit) then
      h == b[from].handle && |data| == b[from].size && c == Becomes(b, from, MEM_ALOC_SIG, data)
    else
      Splittable(b, from, size, h) && |data| == size && c == Split(b, from, size, h, data)
  }

  /** The size below which a fragment is not split, from the requested one: the comparison is unsigned. */
  function NoSplit(nosplit: Int32): (r: Int32) {
    if (nosplit as int) % 0x1_0000_0000_0000_0000 < HEAD then HEAD else nosplit
  }

  /**
   * Where `have - nosplit` stays within an int, a split leaves room for the new header, unless the pool was set up
   * with a negative `nosplit`. The two least values leave no fragment for which the difference stays within an int.
   */
  lemma SplitLeavesRoom(nosplit: Int32)
    ensures (forall have, size :: InInt(have, NoSplit(nosplit)) ==> SafeSplit(have, size, NoSplit(nosplit))) <==>
        (nosplit >= 0 || nosplit <= -0x7fff_ffff)
  {
    if -0x7fff_ffff < nosplit < 0 {
      assert InInt(1, NoSplit(nosplit)) && !SafeSplit(1, 1, NoSplit(nosplit));
    }
  }

  predicate InInt(have: int, nosplit: int) {
    have - nosplit < 0x8000_0000
  }

  /** A fragment of `have` bytes is not split for `size` of them, or has room for the new header. */
  predicate SafeSplit(have: int, size: int, nosplit: int) {
    0 < size <= have && !(size >= have - nosplit) ==> have >= size + HEAD
  }

  /** Where the best fragment is split for `size` bytes, it has room for the new header. */
  ghost predicate Splits(b: Chain, size: int, nosplit: int) {
    forall from :: Best(b, from, size) && from != 0 ==>
        InInt(b[from].size, nosplit) && SafeSplit(b[from].size, size, nosplit)
  }

  predicate Fits(hs: seq<Handle>, h: int, size: int) {
    0 < h < |hs| && hs[h].ptr != NULL && hs[h].status == MEM_FREE_SIG && hs[h].size >= size
  }

  /** The table answers what fits. */
  lemma FitsOf(b: Chain, hs: seq<Handle>, total: int, size: int, i: int)
    requires Tiled(b, total) && Table(b, hs) && 0 < i < |b| && !Live(b[i]) && b[i].size >= size
    ensures Fits(hs, b[i].handle, size) && hs[b[i].handle].size == b[i].size
  {
    EntryAt(b, hs, i);
    BlockOf(b, total, 0);
    Apart2(b, total, 0, i);
    BlockOf(b, total, i);
  }

  lemma FitsBlock(b: Chain, hs: seq<Handle>, total: int, size: int, h: int) returns (i: int)
    requires Tiled(b, total) && Table(b, hs) && Fits(hs, h, size)
    ensures 0 < i < |b| && !Live(b[i]) && b[i].size >= size && b[i].handle == h && hs[h].size == b[i].size
  {
    i := BlockAt(b, hs, h);
    BlockOf(b, total, 0);
  }

  /** A block in use changes between locked and released, or gets other bytes. */
  lemma BecomesLive(b: Chain, hdrs: Heap, hs: seq<Handle>, mem: seq<bv8>, i: int, sig: int, data: seq<bv8>)
    requires Rep(b, hdrs, hs, mem) && Apart(b) && 0 <= i < |b| && Live(b[i]) && sig != MEM_FREE_SIG
    ensures var c := Becomes(b, i, sig, data);
            && Apart(c) && Sum(c) == Sum(b)
            && Chunks(c) == (Chunks(b) - {ChunkOf(b[i])}) + {ChunkOf(b[i].(sig := sig, data := data))}
  {
    RepTiled(b, hdrs, hs, mem);
    hide Rep, Tiled, Sum, Chunks, Apart, ApartBut;
    BecomesSame(b, i, sig, data);
    BecomesApart(b, i, sig, data);
    hide Becomes;
    ChunksBecome(b, i, sig, data, |mem|);
  }

  lemma LiveAt(b: Chain, i: int)
    requires 0 <= i < |b| && Live(b[i])
    ensures ChunkOf(b[i]) in Chunks(b)
  {
  }

  /** Merging changes no live chunk and nothing that squeezing would come to. */
  lemma MergedKeeps(b: Chain, i: int)
    requires 0 <= i < |b| && !Live(b[i])
    ensures var c := Merged(b, i);
            Chunks(c) == Chunks(b) && Squeezed(c) == Squeezed(b) && Sum(c).lives == Sum(b).lives
            && Sum(c).live == Sum(b).live
  {
    var c, k := MergedPrev(b, i), Into(b, i);
    var d := Merged(b, i);
    assert PrevFree(b, i) ==> FreePair(b, i - 1) && c == Join(b, i - 1);
    assert NextFree(c, k) ==> FreePair(c, k) && d == Join(c, k);
    hide *;
    if PrevFree(b, i) { JoinKeeps(b, i - 1); }
    if NextFree(c, k) { JoinKeeps(c, k); }
  }

  lemma JoinKeeps(b: Chain, i: int)
    requires FreePair(b, i)
    ensures var c := Join(b, i);
            Chunks(c) == Chunks(b) && Squeezed(c) == Squeezed(b) && Sum(c).lives == Sum(b).lives
            && Sum(c).live == Sum(b).live
  {
    hide Chunks, Sum, Join;
    JoinSum(b, i);
    ChunksJoin(b, i);
  }

  /** Nothing to merge, nothing merged. */
  lemma MergedIdle(b: Chain, i: int)
    requires 0 <= i < |b| && !Live(b[i]) && Apart(b)
    ensures Merged(b, i) == b
  {
    assert !FreePair(b, i) && !FreePair(b, i - 1);
  }

  /** The counters stay within the arena. */
  lemma RepSums(b: Chain, hdrs: Heap, hs: seq<Handle>, mem: seq<bv8>)
    requires Rep(b, hdrs, hs, mem)
    ensures var s := Sum(b); 0 <= s.free && 0 <= s.live && s.free + s.live + HEAD * |b| == |mem|
    ensures forall i :: 0 <= i < |b| ==> 0 <= b[i].size <= if Live(b[i]) then Sum(b).live else Sum(b).free
  {
    SumFills(b, |mem|);
    SumSigns(b, |mem|);
  }

  /** Blocks lie one after the other. */
  lemma RepOrder(b: Chain, hdrs: Heap, hs: seq<Handle>, mem: seq<bv8>, i: int, j: int)
    requires Rep(b, hdrs, hs, mem) && 0 <= i < j < |b|
    ensures 0 <= b[i].at < End(b[i]) <= b[j].at && b[i].handle != b[j].handle
    ensures j == i + 1 ==> End(b[i]) == b[j].at
  {
    PairOf(b, |mem|, i, j);
    BlockOf(b, |mem|, i);
  }

  lemma IdleApart(b: Chain, i: int)
    requires Apart(b)
    ensures ApartBut(b, i)
  {
  }

  /** A block in use is given back. */
  lemma BecomesFree(b: Chain, hdrs: Heap, hs: seq<Handle>, mem: seq<bv8>, i: int)
    requires Rep(b, hdrs, hs, mem) && Apart(b) && 0 <= i < |b| && Live(b[i])
    ensures var c := Becomes(b, i, MEM_FREE_SIG, []);
            && ApartBut(c, i) && Chunks(c) == Chunks(b) - {ChunkOf(b[i])}
            && Sum(c) == Plus(Sum(b), Tally(b[i].size, -b[i].size, 1, -1))
  {
    RepTiled(b, hdrs, hs, mem);
    hide Rep, Tiled, Sum, Chunks, Apart, ApartBut;
    BecomesLess(b, i);
    BecomesApart(b, i, MEM_FREE_SIG, []);
    hide Becomes;
    ChunksBecome(b, i, MEM_FREE_SIG, [], |mem|);
  }

  /** Two writes next to each other are one. */
  lemma Overwritten(mem0: seq<bv8>, mem1: seq<bv8>, mem2: seq<bv8>, a: Addr, lo: Addr, mid: Addr, hi: Addr)
    requires a <= lo && Elsewhere(mem0, mem1, mid, hi) && Elsewhere(mem1, mem2, lo, mid) && 0 <= a
    ensures Elsewhere(mem0, mem2, a, hi) && mem2[mid..hi] == mem1[mid..hi]
  {
    SliceKept(mem1, mem2, lo, mid, mid, hi);
    SliceKept(mem0, mem1, mid, hi, 0, a);
    SliceKept(mem1, mem2, lo, mid, 0, a);
    SliceKept(mem0, mem1, mid, hi, hi, |mem0|);
    SliceKept(mem1, mem2, lo, mid, hi, |mem0|);
  }

  /** What a block's links lead to. */
  lemma Neighbours(b: Chain, hdrs: Heap, hs: seq<Handle>, mem: seq<bv8>, i: int)
    requires Rep(b, hdrs, hs, mem) && 0 <= i < |b|
    ensures 0 <= b[i].handle < |hs| && hs[b[i].handle] == HandleOf(b[i])
    ensures b[i].at in hdrs && hdrs[b[i].at].handle == b[i].handle
      && hdrs[b[i].at].guard0 == hdrs[b[i].at].guard1 == b[i].sig
    ensures var p := hdrs[b[i].at].prev;
            (p == NULL <==> i == 0)
             && (i > 0 ==>
                   p == b[i - 1].at && p in hdrs
                   && hdrs[p].handle == b[i - 1].handle && hdrs[p].guard0 == b[i - 1].sig)
    ensures i > 0 ==> 0 <= b[i - 1].handle < |hs| && hs[b[i - 1].handle].status == b[i - 1].sig
    ensures var n := hdrs[b[i].at].next;
            (n == NULL <==> i == |b| - 1)
             && (i < |b| - 1 ==>
                   n == b[i + 1].at && n in hdrs
                   && hdrs[n].handle == b[i + 1].handle && hdrs[n].guard0 == b[i + 1].sig)
    ensures i < |b| - 1 ==> 0 <= b[i + 1].handle < |hs| && hs[b[i + 1].handle].status == b[i + 1].sig
  {
    hide Rep;
    RepAt(b, hdrs, hs, mem, i);
    if i > 0 { RepAt(b, hdrs, hs, mem, i - 1); }
    if i < |b| - 1 { RepAt(b, hdrs, hs, mem, i + 1); }
  }

  /** The headers that joining writes. */
  lemma JoinStores(b: Chain, i: int, hdrs: Heap, hdrs1: Heap, hdrs2: Heap, hdrs3: Heap)
    requires 0 <= i < |b| - 1 && b[i].at in hdrs && b[i + 1].at in hdrs && b[i].at < b[i + 1].at
      && (i + 2 < |b| ==> b[i + 2].at in hdrs && b[i + 1].at < b[i + 2].at)
    requires hdrs[b[i + 1].at].next == if i + 2 < |b| then b[i + 2].at else NULL
    requires hdrs1 == hdrs[b[i].at := hdrs[b[i].at].(next := hdrs[b[i + 1].at].next)]
    requires if i + 2 < |b| then hdrs2 == hdrs1[b[i + 2].at := hdrs1[b[i + 2].at].(prev := b[i].at)] else hdrs2 == hdrs1
    requires hdrs3 == hdrs2[b[i + 1].at := Head(0, NULL, NULL, hdrs2[b[i + 1].at].handle, 0)]
    ensures JoinedHeads(b, i, hdrs, hdrs3)
  {
  }

  lemma Gone(b: Chain, i: int, hdrs: Heap, hdrs': Heap)
    requires 0 <= i < |b| - 1 && JoinedHeads(b, i, hdrs, hdrs') && b[i + 1].at in hdrs && b[i].at != b[i + 1].at
    ensures b[i + 1].at in hdrs' && hdrs'[b[i + 1].at].prev == NULL
  {
  }

  /** Joining the block `i` leaves the header at `q`, inside the joined block, alone. */
  lemma JoinSpares(b: Chain, hdrs: Heap, hs: seq<Handle>, mem: seq<bv8>, i: int, hdrs': Heap, q: Addr)
    requires Rep(b, hdrs, hs, mem) && 0 <= i < |b| - 1 && JoinedHeads(b, i, hdrs, hdrs') && q in hdrs
    requires b[i].at < q < End(b[i])
    ensures q in hdrs' && hdrs'[q] == hdrs[q]
  {
    hide Rep;
    RepOrder(b, hdrs, hs, mem, i, i + 1);
    if i + 2 < |b| { RepOrder(b, hdrs, hs, mem, i + 1, i + 2); }
  }

  /** Headers outside of `lo` to `hi` are as they were. */
  ghost predicate HeadsElsewhere(hdrs: Heap, hdrs': Heap, lo: Addr, hi: Addr) {
    forall q :: q in hdrs && (q + HEAD <= lo || hi <= q) ==> q in hdrs' && hdrs'[q] == hdrs[q]
  }

  lemma SparedTwice(hdrs: Heap, lo: Addr, mid: Addr, hi: Addr, p: Addr, hd: Head)
    requires lo <= mid <= hi && p == lo && mid == lo + HEAD
    ensures HeadsElsewhere(hdrs, Spared(Spared(hdrs, mid, hi), lo, mid)[p := hd], lo, hi)
  {
  }

  lemma HeadElsewhere(hdrs: Heap, hdrs': Heap, lo: Addr, hi: Addr, q: Addr)
    requires HeadsElsewhere(hdrs, hdrs', lo, hi) && q in hdrs && (q + HEAD <= lo || hi <= q)
    ensures q in hdrs' && hdrs'[q] == hdrs[q]
  {
  }

  /** The headers that sliding the block `i` writes. */
  lemma SlideStores(b: Chain, hdrs: Heap, hs: seq<Handle>, mem: seq<bv8>, i: int, hdrs1: Heap, hdrs2: Heap, hdrs3: Heap)
    requires 0 <= i < |b| - 1
    requires var new_ := b[i].at + b[i + 1].size + HEAD;
             && HeadsElsewhere(hdrs, hdrs1, new_, new_ + HEAD + b[i].size)
             && new_ in hdrs1
             && hdrs1[new_] == Head(b[i].sig, if i + 2 < |b| then b[i + 2].at else NULL, b[i].at, b[i].handle, b[i].sig)
             && (if i + 2 < |b|
                    then b[i + 2].at in hdrs1 && hdrs2 == hdrs1[b[i + 2].at := hdrs1[b[i + 2].at].(prev := new_)]
                    else hdrs2 == hdrs1)
    requires hdrs3 == hdrs2[b[i].at := Head(MEM_FREE_SIG, b[i].at + b[i + 1].size + HEAD,
                                            if i > 0 then b[i - 1].at else NULL, b[i + 1].handle, MEM_FREE_SIG)]
    requires Rep(b, hdrs, hs, mem) && Slidable(b, i)
    ensures SlidHeads(b, i, hdrs, hdrs3)
  {
    hide Rep;
    RepAt(b, hdrs, hs, mem, i);
    RepAt(b, hdrs, hs, mem, i + 1);
    RepOrder(b, hdrs, hs, mem, i, i + 1);
    if i + 2 < |b| {
      RepOrder(b, hdrs, hs, mem, i + 1, i + 2);
    }
  }

  lemma RepTaken(b: Chain, hdrs: Heap, hs: seq<Handle>, mem: seq<bv8>, h: int)
    requires Rep(b, hdrs, hs, mem) && 0 <= h < |hs| && hs[h].ptr == NULL
    ensures h != 0 && forall j :: 0 <= j < |b| ==> b[j].handle != h
  {
    forall j | 0 <= j < |b| ensures b[j].handle != h {
      BlockOf(b, |mem|, j);
      EntryAt(b, hs, j);
    }
    assert b[0].handle == 0;
  }

  /** With fewer than half of the handles in use, one is left over. */
  lemma RepUnused(b: Chain, hdrs: Heap, hs: seq<Handle>, mem: seq<bv8>)
    requires Rep(b, hdrs, hs, mem) && Apart(b) && 2 * Sum(b).lives + 1 < |hs|
    ensures exists h :: 0 < h < |hs| && hs[h].ptr == NULL
  {
    var h := UnusedHandle(b, |mem|, |hs|);
    if hs[h].ptr != NULL {
      var i := BlockAt(b, hs, h);
    }
    assert hs[h].ptr == NULL;
  }

  /** What an allocation gives, and that nothing else changes. */
  lemma CarvedKeeps(b: Chain, hdrs: Heap, hs: seq<Handle>, mem: seq<bv8>, c: Chain, from: int, size: int, nosplit: int,
      h: int, data: seq<bv8>)
    requires Rep(b, hdrs, hs, mem) && Apart(b) && Best(b, from, size) && size > 0
      && Carved(b, c, from, size, nosplit, h, data)
    ensures Apart(c) && Chunks(c) == Chunks(b) + {Chunk(h, false, data, NULL)} && Sum(c).lives == Sum(b).lives + 1
    ensures |data| == size || size < |data| <= size + nosplit
    ensures forall k :: k in Chunks(b) ==> k.handle != h
  {
    hide Rep, Sum, Apart, Chunks, Becomes, Split, Splittable;
    if Whole(b, from, size, nosplit) {
      WholeKeeps(b, hdrs, hs, mem, from, data);
      NewHandle(b, hdrs, hs, mem, from);
    } else {
      SplitKeeps(b, from, size, h, data);
    }
  }

  lemma WholeKeeps(b: Chain, hdrs: Heap, hs: seq<Handle>, mem: seq<bv8>, from: int, data: seq<bv8>)
    requires Rep(b, hdrs, hs, mem) && Apart(b) && 0 <= from < |b| && !Live(b[from])
    ensures var c := Becomes(b, from, MEM_ALOC_SIG, data);
            Apart(c) && Chunks(c) == Chunks(b) + {Chunk(b[from].handle, false, data, NULL)}
            && Sum(c).lives == Sum(b).lives + 1
  {
    RepTiled(b, hdrs, hs, mem);
    hide Rep, Tiled, Sum, Apart, ApartBut, Chunks;
    BecomesMore(b, from, data);
    BecomesApart(b, from, MEM_ALOC_SIG, data);
    hide Becomes;
    ChunksMore(b, from, data, |mem|);
  }

  lemma SplitKeeps(b: Chain, from: int, size: int, h: int, data: seq<bv8>)
    requires Apart(b) && Splittable(b, from, size, h)
    ensures var c := Split(b, from, size, h, data);
            Apart(c) && Chunks(c) == Chunks(b) + {Chunk(h, false, data, NULL)} && Sum(c).lives == Sum(b).lives + 1
    ensures forall k :: k in Chunks(b) ==> k.handle != h
  {
    UnusedName(b, h);
    hide Sum, Apart, Chunks, Split, Splittable;
    SplitSum(b, from, size, h, data);
    SplitApart(b, from, size, h, data);
    ChunksSplit(b, from, size, h, data);
  }

  lemma NewHandle(b: Chain, hdrs: Heap, hs: seq<Handle>, mem: seq<bv8>, i: int)
    requires Rep(b, hdrs, hs, mem) && 0 <= i < |b| && !Live(b[i])
    ensures forall k :: k in Chunks(b) ==> k.handle != b[i].handle
  {
    RepTiled(b, hdrs, hs, mem);
    hide Rep;
    forall k | k in Chunks(b) ensures k.handle != b[i].handle {
      var j :| 0 <= j < |b| && Live(b[j]) && k == ChunkOf(b[j]);
      Apart2(b, |mem|, i, j);
    }
  }

  lemma UnusedName(b: Chain, h: int)
    requires forall j :: 0 <= j < |b| ==> b[j].handle != h
    ensures forall k :: k in Chunks(b) ==> k.handle != h
  {
  }

  /** All that sliding reads. */
  lemma SlideFacts(b: Chain, hdrs: Heap, hs: seq<Handle>, mem: seq<bv8>, i: int)
    requires Rep(b, hdrs, hs, mem) && Slidable(b, i)
    ensures b[i].at in hdrs
      && hdrs[b[i].at] == Head(b[i].sig, b[i + 1].at, if i > 0 then b[i - 1].at else NULL, b[i].handle, b[i].sig)
    ensures b[i + 1].at in hdrs && hdrs[b[i + 1].at].handle == b[i + 1].handle
      && hdrs[b[i + 1].at].next == if i + 2 < |b| then b[i + 2].at else NULL
    ensures 0 <= b[i].handle < |hs| && hs[b[i].handle].size == b[i].size && 0 <= b[i + 1].handle < |hs|
      && hs[b[i + 1].handle].size == b[i + 1].size
    ensures b[i].handle != b[i + 1].handle && 0 <= b[i].at && 0 <= b[i].size && 0 <= b[i + 1].size
      && End(b[i]) == b[i + 1].at && End(b[i + 1]) <= |mem|
    ensures i + 2 < |b| ==> b[i + 2].at in hdrs && End(b[i + 1]) <= b[i + 2].at
    ensures mem[b[i].at + HEAD..b[i].at + HEAD + b[i].size] == b[i].data
  {
    hide Rep;
    RepAt(b, hdrs, hs, mem, i);
    RepAt(b, hdrs, hs, mem, i + 1);
    RepOrder(b, hdrs, hs, mem, i, i + 1);
    if i + 2 < |b| { RepOrder(b, hdrs, hs, mem, i + 1, i + 2); RepAt(b, hdrs, hs, mem, i + 2); }
  }

  /** The arena and the table once the block `i` has slid. */
  lemma SlideDone(b: Chain, hdrs: Heap, hs: seq<Handle>, mem: seq<bv8>, i: int, hdrs1: Heap, hdrs2: Heap, hdrs3: Heap,
      mem1: seq<bv8>, mem2: seq<bv8>, hs': seq<Handle>)
    requires 0 <= i < |b| - 1
    requires var new_ := b[i].at + b[i + 1].size + HEAD;
             && HeadsElsewhere(hdrs, hdrs1, new_, new_ + HEAD + b[i].size)
             && new_ in hdrs1
             && hdrs1[new_] == Head(b[i].sig, if i + 2 < |b| then b[i + 2].at else NULL, b[i].at, b[i].handle, b[i].sig)
             && (if i + 2 < |b|
                    then b[i + 2].at in hdrs1 && hdrs2 == hdrs1[b[i + 2].at := hdrs1[b[i + 2].at].(prev := new_)]
                    else hdrs2 == hdrs1)
    requires hdrs3 == hdrs2[b[i].at := Head(MEM_FREE_SIG, b[i].at + b[i + 1].size + HEAD,
                                            if i > 0 then b[i - 1].at else NULL, b[i + 1].handle, MEM_FREE_SIG)]
    requires var dest := b[i].at + b[i + 1].size + HEAD + HEAD;
             && 0 <= dest <= dest + b[i].size <= |mem1| && Elsewhere(mem, mem1, dest, dest + b[i].size)
             && mem1[dest..dest + b[i].size] == b[i].data
             && Elsewhere(mem1, mem2, dest - HEAD, dest)
    requires 0 <= b[i].handle < |hs| && 0 <= b[i + 1].handle < |hs| && b[i].handle != b[i + 1].handle
    requires hs' == hs[b[i + 1].handle := hs[b[i + 1].handle].(ptr := b[i].at)]
                       [b[i].handle := hs[b[i].handle].(ptr := b[i].at + HEAD + b[i + 1].size)]
    requires Rep(b, hdrs, hs, mem) && Slidable(b, i)
    ensures Rep(Slide(b, i), hdrs3, hs', mem2) && |mem2| == |mem|
  {
    hide Rep, SlidHeads, HeadsElsewhere;
    RepAt(b, hdrs, hs, mem, i);
    RepAt(b, hdrs, hs, mem, i + 1);
    RepOrder(b, hdrs, hs, mem, i, i + 1);
    var dest := b[i].at + b[i + 1].size + HEAD + HEAD;
    Overwritten(mem, mem1, mem2, b[i].at + HEAD, dest - HEAD, dest, dest + b[i].size);
    SlideStores(b, hdrs, hs, mem, i, hdrs1, hdrs2, hdrs3);
    RepSlide(b, hdrs, hs, mem, i, hdrs3, mem2);
  }

  /** The headers that cutting a piece off the block `i` writes. */
  lemma SplitStores(b: Chain, hdrs: Heap, hs: seq<Handle>, mem: seq<bv8>, i: int, size: int, h: int, hdrs1: Heap,
      hdrs2: Heap, hdrs3: Heap)
    requires 0 <= i < |b| && 0 <= b[i].at
    requires var p := b[i].at + (b[i].size - size);
             && HeadsElsewhere(hdrs, hdrs1, p, p + HEAD)
             && p in hdrs1
             && hdrs1[p] == Head(MEM_ALOC_SIG, if i + 1 < |b| then b[i + 1].at else NULL, b[i].at, h, MEM_ALOC_SIG)
             && (if i + 1 < |b|
                    then b[i + 1].at in hdrs1 && hdrs2 == hdrs1[b[i + 1].at := hdrs1[b[i + 1].at].(prev := p)]
                    else hdrs2 == hdrs1)
             && b[i].at in hdrs2 && hdrs3 == hdrs2[b[i].at := hdrs2[b[i].at].(next := p)]
    requires Rep(b, hdrs, hs, mem) && Splittable(b, i, size, h)
    ensures SplitHeads(b, i, b[i].at + (b[i].size - size), h, hdrs, hdrs3)
  {
    hide Rep;
    RepAt(b, hdrs, hs, mem, i);
    if i + 1 < |b| { RepOrder(b, hdrs, hs, mem, i, i + 1); }
  }

  /** The arena, the table and the counters once a piece has been cut off. */
  lemma SplitDone(b: Chain, hdrs: Heap, hs: seq<Handle>, mem: seq<bv8>, i: int, size: int, h: int, hdrs': Heap,
      mem': seq<bv8>, hs': seq<Handle>)
    requires Rep(b, hdrs, hs, mem) && Splittable(b, i, size, h) && 0 <= h < |hs|
    requires SplitHeads(b, i, b[i].at + (b[i].size - size), h, hdrs, hdrs')
    requires Elsewhere(mem, mem', b[i].at + (b[i].size - size), b[i].at + (b[i].size - size) + HEAD)
    requires 0 <= b[i].handle < |hs| && h != b[i].handle
    requires hs' == hs[h := Handle(b[i].at + (b[i].size - size), MEM_ALOC_SIG, size)]
                       [b[i].handle := hs[b[i].handle].(size := hs[b[i].handle].size - (size + HEAD))]
    ensures 0 <= End(b[i]) - size <= End(b[i]) <= |mem'| == |mem|
    ensures var c := Split(b, i, size, h, mem'[End(b[i]) - size..End(b[i])]);
            && Rep(c, hdrs', hs', mem') && Sum(c) == Plus(Sum(b), Tally(-(size + HEAD), size, 0, 1))
            && 0 <= Sum(c).free <= |mem| && 0 <= Sum(c).live <= |mem|
            && |c| == |b| + 1 && c[|b|].at == if i == |b| - 1 then b[i].at + (b[i].size - size) else b[|b| - 1].at
  {
    hide Rep, Sum, SplitHeads, Elsewhere;
    ElsewhereSize(mem, mem', b[i].at + (b[i].size - size), b[i].at + (b[i].size - size) + HEAD);
    RepSplit(b, hdrs, hs, mem, i, size, h, hdrs', mem');
    var data := mem'[End(b[i]) - size..End(b[i])];
    SplitSum(b, i, size, h, data);
    RepSums(Split(b, i, size, h, data), hdrs', hs', mem');
  }

  lemma ElsewhereSize(mem: seq<bv8>, mem': seq<bv8>, lo: Addr, hi: Addr)
    requires Elsewhere(mem, mem', lo, hi)
    ensures |mem'| == |mem|
  {
  }

  /** The bytes of a block in use change in place. */
  lemma RepStore(b: Chain, hdrs: Heap, hs: seq<Handle>, mem: seq<bv8>, i: int, hdrs': Heap, mem': seq<bv8>,
      data: seq<bv8>)
    requires Rep(b, hdrs, hs, mem) && 0 <= i < |b| && Live(b[i])
    requires Elsewhere(mem, mem', b[i].at + HEAD, End(b[i])) && HeadsElsewhere(hdrs, hdrs', b[i].at + HEAD, End(b[i]))
    requires mem'[b[i].at + HEAD..End(b[i])] == data && |data| == b[i].size
    ensures Rep(Becomes(b, i, b[i].sig, data), hdrs', hs, mem')
  {
    var c := Becomes(b, i, b[i].sig, data);
    RepTiled(b, hdrs, hs, mem);
    RepAt(b, hdrs, hs, mem, i);
    hide Rep, Tiled, Heads, Table, Bytes;
    BecomesTiled(b, i, b[i].sig, data, |mem|);
    StoreTable(b, i, data, hs);
    assert Heads(c, hdrs') && Bytes(c, mem') by {
      forall j | 0 <= j < |c| ensures StoredAt(c, hdrs', mem', j) {
        StoreAt(b, hdrs, hs, mem, i, hdrs', mem', data, j);
      }
      StoredAll(c, hdrs', mem');
    }
    RepBuilt(c, hdrs', hs, mem');
  }

  ghost predicate StoredAt(c: Chain, hdrs: Heap, mem: seq<bv8>, j: int)
    requires 0 <= j < |c|
  {
    && c[j].at in hdrs && hdrs[c[j].at] == HeadOf(c, j)
    && (Live(c[j]) ==> 0 <= c[j].at + HEAD <= End(c[j]) <= |mem| && mem[c[j].at + HEAD..End(c[j])] == c[j].data)
  }

  lemma StoredAll(c: Chain, hdrs: Heap, mem: seq<bv8>)
    requires forall j :: 0 <= j < |c| ==> StoredAt(c, hdrs, mem, j)
    ensures Heads(c, hdrs) && Bytes(c, mem)
  {
    assert forall j :: 0 <= j < |c| ==> StoredAt(c, hdrs, mem, j);
    forall j | 0 <= j < |c| ensures c[j].at in hdrs && hdrs[c[j].at] == HeadOf(c, j) {
      assert StoredAt(c, hdrs, mem, j);
    }
    forall j | 0 <= j < |c| && Live(c[j])
      ensures 0 <= c[j].at + HEAD <= End(c[j]) <= |mem| && mem[c[j].at + HEAD..End(c[j])] == c[j].data
    {
      assert StoredAt(c, hdrs, mem, j);
    }
  }

  lemma StoreAt(b: Chain, hdrs: Heap, hs: seq<Handle>, mem: seq<bv8>, i: int, hdrs': Heap, mem': seq<bv8>,
      data: seq<bv8>, j: int)
    requires Rep(b, hdrs, hs, mem) && 0 <= i < |b| && Live(b[i]) && 0 <= j < |b|
    requires Elsewhere(mem, mem', b[i].at + HEAD, End(b[i])) && HeadsElsewhere(hdrs, hdrs', b[i].at + HEAD, End(b[i]))
    requires mem'[b[i].at + HEAD..End(b[i])] == data && |data| == b[i].size
    ensures StoredAt(Becomes(b, i, b[i].sig, data), hdrs', mem', j)
  {
    hide Rep;
    RepAt(b, hdrs, hs, mem, i);
    RepAt(b, hdrs, hs, mem, j);
    if j < i { RepOrder(b, hdrs, hs, mem, j, i); }
    if j > i { RepOrder(b, hdrs, hs, mem, i, j); }
    HeadElsewhere(hdrs, hdrs', b[i].at + HEAD, End(b[i]), b[j].at);
    if j != i && Live(b[j]) { SliceKept(mem, mem', b[i].at + HEAD, End(b[i]), b[j].at + HEAD, End(b[j])); }
  }

  lemma StoreTable(b: Chain, i: int, data: seq<bv8>, hs: seq<Handle>)
    requires Table(b, hs) && 0 <= i < |b|
    ensures Table(Becomes(b, i, b[i].sig, data), hs)
  {
    var c := Becomes(b, i, b[i].sig, data);
    forall j | 0 <= j < |c| ensures 0 <= c[j].handle < |hs| && hs[c[j].handle] == HandleOf(c[j]) {
      EntryAt(b, hs, j);
    }
    forall h | 0 <= h < |hs| && hs[h].ptr != NULL ensures exists j :: 0 <= j < |c| && c[j].handle == h {
      var j := BlockAt(b, hs, h);
      assert c[j].handle == h;
    }
  }

  lemma RepBuilt(b: Chain, hdrs: Heap, hs: seq<Handle>, mem: seq<bv8>)
    requires Tiled(b, |mem|) && Heads(b, hdrs) && Table(b, hs) && Bytes(b, mem)
    ensures Rep(b, hdrs, hs, mem)
  {
  }

  /** Where the fragment that the scan found is. */
  lemma RepFits(b: Chain, hdrs: Heap, hs: seq<Handle>, mem: seq<bv8>, size: int, small: int) returns (from: int)
    requires Rep(b, hdrs, hs, mem) && Fits(hs, small, size)
      && forall g :: Fits(hs, g, size) ==> hs[small].size <= hs[g].size
    ensures 0 < from < |b| && b[from].handle == small && Best(b, from, size) && Roomy(b, size)
  {
    RepTiled(b, hdrs, hs, mem);
    hide Rep, Tiled, Table;
    from := FitsBlock(b, hs, |mem|, size, small);
    forall i | 0 < i < |b| && !Live(b[i]) && b[i].size >= size ensures b[from].size <= b[i].size {
      FitsOf(b, hs, |mem|, size, i);
    }
  }

  lemma OnlyHandleZero(b: Chain, size: int)
    requires b != [] && !Live(b[0]) && forall i :: 0 < i < |b| && !Live(b[i]) ==> b[i].size < size
    ensures (Roomy(b, size) <==> b[0].size >= size + HEAD) && (Roomy(b, size) ==> Best(b, 0, size))
  {
  }

  /** When the scan found none, only handle 0 is left. */
  lemma RepFitsNot(b: Chain, hdrs: Heap, hs: seq<Handle>, mem: seq<bv8>, size: int)
    requires Rep(b, hdrs, hs, mem) && forall g :: !Fits(hs, g, size)
    ensures b != [] && (Roomy(b, size) <==> b[0].size >= size + HEAD) && (Roomy(b, size) ==> Best(b, 0, size))
  {
    RepTiled(b, hdrs, hs, mem);
    BlockOf(b, |mem|, 0);
    hide *;
    forall i | 0 < i < |b| && !Live(b[i]) ensures b[i].size < size {
      if b[i].size >= size {
        FitsOf(b, hs, |mem|, size, i);
      }
    }
    OnlyHandleZero(b, size);
  }

  lemma CanSplit(b: Chain, hdrs: Heap, hs: seq<Handle>, mem: seq<bv8>, i: int, size: int, h: int)
    requires Rep(b, hdrs, hs, mem) && 0 <= i < |b| && !Live(b[i]) && 0 <= size && b[i].size >= size + HEAD
    requires 0 <= h < |hs| && hs[h].ptr == NULL
    ensures Splittable(b, i, size, h)
  {
    RepTaken(b, hdrs, hs, mem, h);
  }

  lemma BecomesAt(b: Chain, i: int, sig: int, data: seq<bv8>)
    requires 0 <= i < |b|
    ensures var c := Becomes(b, i, sig, data); |c| == |b| && forall j :: 0 <= j < |c| ==>
        c[j].at == b[j].at && c[j].size == b[j].size && c[j].handle == b[j].handle && (j == i ==> c[j].sig == sig)
  {
  }

  lemma NotBoth(b: Chain, i: int)
    requires Apart(b) && 0 <= i < |b| && !Live(b[i])
    ensures i + 1 < |b| ==> Live(b[i + 1])
  {
    assert !FreePair(b, i);
  }

  /** The chunk under the handle `h` is new, has `size` bytes or a few more, and nothing else has changed. */
  ghost predicate Grants(b: Chain, c: Chain, size: int, nosplit: int, h: int) {
    exists data ::
      && (|data| == size || size < |data| <= size + nosplit) && Chunks(c) == Chunks(b) + {Chunk(h, false, data, NULL)}
      && forall k :: k in Chunks(b) ==> k.handle != h
  }

  lemma GrantsAlike(b: Chain, b': Chain, c: Chain, size: int, nosplit: int, h: int)
    requires Chunks(b) == Chunks(b') && Grants(b', c, size, nosplit, h)
    ensures Grants(b, c, size, nosplit, h)
  {
  }

  lemma Granted(b: Chain, hdrs: Heap, hs: seq<Handle>, mem: seq<bv8>, c: Chain, from: int, size: int, nosplit: int,
      h: int, data: seq<bv8>)
    requires Rep(b, hdrs, hs, mem) && Apart(b) && Best(b, from, size) && size > 0
      && Carved(b, c, from, size, nosplit, h, data)
    requires Roomy(b, size)
    ensures Grants(b, c, size, nosplit, h) && Squeezed(b) >= size + HEAD
  {
    CarvedKeeps(b, hdrs, hs, mem, c, from, size, nosplit, h, data);
    RoomySqueezed(b, |mem|, size);
  }

  lemma NotRoomy(b: Chain, size: int)
    requires !Roomy(b, size) && b != []
    ensures Small(b, size + HEAD)
  {
  }

  lemma IsRoomy(b: Chain, k: int, size: int)
    requires 0 <= k < |b| && !Live(b[k]) && b[k].size >= size + HEAD
    ensures Roomy(b, size)
  {
  }

  /** Stepping over a chunk that cannot slide. */
  lemma StillSettled(b: Chain, c: int)
    requires Settled(b, c + 1) && 0 <= c
    ensures !Slidable(b, c) ==> Settled(b, c)
    ensures c == 0 ==> Settled(b, 1)
  {
  }

  /** A slide followed by a merge. */
  lemma SlidMerged(b: Chain, c: int)
    requires Apart(b) && Slidable(b, c) && Settled(b, c + 1) && 0 < c
    ensures var b1, r := Slide(b, c), Merged(Slide(b, c), c); var k := Into(b1, c);
            && Chunks(r) == Chunks(b) && Squeezed(r) == Squeezed(b) && Sum(r).lives == Sum(b).lives
            && Sum(r).free >= Sum(b).free
            && |b| == |r| + (if k == c then 0 else 1) && 0 <= k <= c && (k != c ==> k == c - 1) && k < |r|
               && !Live(r[k])
            && (k > 0 ==> r[0] == b[0]) && (k == c ==> r == b1 && r[c].at == b[c].at && Settled(r, c))
            && (k == 0 ==> c == 1 && PrevFree(b1, c) && Settled(r, 1))
  {
    var b1 := Slide(b, c);
    SlideSettles(b, c);
    SqueezedKept(b, c);
    ChunksSlide(b, c);
    SlideSum(b, c);
    if PrevFree(b1, c) { 
      assert FreePair(b1, c - 1);
      if c == 1 { JoinSettles(b1, 0); }
      JoinSum(b1, c - 1);
    }
    hide Settled, Chunks, Sum, Apart, ApartBut;
    MergedKeeps(b1, c);
    AboveLive(b, c);
  }

  /** It leaves the free space between two locked chunks what it was. */
  lemma SlidReaches(b: Chain, c: int, total: int, n: int)
    requires Tiled(b, total) && Slidable(b, c)
    ensures Reaches(Merged(Slide(b, c), c), n) <==> Reaches(b, n)
  {
    var b1 := Slide(b, c);
    SlideReaches(b, c, n);
    AboveLive(b, c);
    BlockOf(b, total, c + 1);
    hide Reaches, Tiled;
    if PrevFree(b1, c) {
      JoinReaches(b1, c - 1, n);
    }
  }

  /** Only the fragment that is merged grows. */
  lemma SlidSmall(b: Chain, c: int, n: int)
    requires Slidable(b, c) && Small(b, n)
    ensures var r, k := Merged(Slide(b, c), c), Into(Slide(b, c), c);
            0 <= k < |r| && ((k != c && r[k].size >= n) || Small(r, n))
  {
    AboveLive(b, c);
    var b1 := Slide(b, c);
    assert b[c + 1].size < n;
    if !PrevFree(b1, c) {
      assert Small(b1, n);
    }
  }

  lemma AboveLive(b: Chain, c: int)
    requires Slidable(b, c)
    ensures !NextFree(Slide(b, c), c) && (PrevFree(Slide(b, c), c) ==> !NextFree(Join(Slide(b, c), c - 1), c - 1))
  {
  }

  /** A walk that ends without room has squeezed all free space that it could. */
  lemma Exhausted(b: Chain, c: Chain, hdrs: Heap, hs: seq<Handle>, mem: seq<bv8>)
    requires Rep(c, hdrs, hs, mem) && Apart(c) && Chunks(b) == Chunks(c) && Settled(c, 1)
    ensures NoneLocked(b) ==> Squeezed(c) == c[0].size
  {
    if NoneLocked(b) {
      NoneLockedAlike(b, c);
      SettledSqueezed(c, |mem|);
    }
  }

  class Pool {
    const chunks: int
    const nosplit: Int32
    var hdrs: Heap
    var mem: seq<bv8>
    var handles: seq<Handle>
    var last: Addr
    var alloced: Int32
    var free: Int32
    var numAllocs: nat
    var numSlides: nat

    /** The chunks in address order. */
    ghost var chain: Chain

    /** Arena, links, table and counters agree. */
    ghost predicate Core()
      reads this
    {
      && Rep(chain, hdrs, handles, mem) && |mem| < 0x8000_0000 && |handles| == chunks
      && |chain| > 0 && last == chain[|chain| - 1].at
      && free == Sum(chain).free && alloced == Sum(chain).live
    }

    ghost predicate Valid()
      reads this
    {
      Core() && Apart(chain)
    }

    /** The chunks in use: handle, lock, bytes, and address while locked. */
    ghost function InUse(): set<Chunk>
      reads this
    {
      Chunks(chain)
    }

    /** The handle has been given out at some time. */
    predicate Known(handle: int)
      reads this
    {
      0 <= handle < |handles| && (handles[handle].ptr == NULL ==> handles[handle].status == MEM_FREE_SIG)
    }

    constructor (count: int, size: int, slack: Int32)
      requires count >= 1 && HEAD <= size + count * 2 * HEAD < 0x8000_0000
      ensures chunks == count * 2 && |mem| == size + chunks * HEAD && nosplit == NoSplit(slack)
      ensures InUse() == {} && chain == [Block(0, 0, MEM_FREE_SIG, |mem| - HEAD, [])]
      ensures Valid() && (nosplit >= HEAD <==> slack >= 0)
      ensures nosplit == if 0 <= slack < HEAD then HEAD else slack
    {
      chunks := count * 2;
      nosplit := NoSplit(slack);
      alloced := 0;
      free := size + count * 2 * HEAD - HEAD;
      last := 0;
      numAllocs, numSlides := 0, 0;
      hdrs := map[0 := Head(MEM_FREE_SIG, NULL, NULL, 0, MEM_FREE_SIG)];
      chain := [Block(0, 0, MEM_FREE_SIG, size + count * 2 * HEAD - HEAD, [])];
      new;
      mem := Garbage(size + count * 2 * HEAD);
      handles := FirstHandles(count * 2, size + count * 2 * HEAD - HEAD);
      SumOne(chain[0]);
      assert chain == [chain[0]];
      assert Table(chain, handles) by {
        assert chain[0].handle == 0;
      }
      assert Apart(chain);
    }

    /** Writes the header bytes at `p`: other headers there are gone, and the bytes under it are no data. */
    method PutHead(p: Addr, hd: Head)
      requires 0 <= p && p + HEAD <= |mem|
      modifies `hdrs, `mem
      ensures hdrs == Spared(old(hdrs), p, p + HEAD)[p := hd]
      ensures Elsewhere(old(mem), mem, p, p + HEAD)
    {
      var junk := Garbage(HEAD);
      mem := mem[..p] + junk + mem[p + HEAD..];
      hdrs := Spared(hdrs, p, p + HEAD)[p := hd];
    }

    /** memmove of `n` bytes. */
    method MoveBytes(dest: Addr, source: Addr, n: nat)
      requires 0 <= dest && dest + n <= |mem| && 0 <= source && source + n <= |mem|
      modifies `hdrs, `mem
      ensures hdrs == Spared(old(hdrs), dest, dest + n)
      ensures Elsewhere(old(mem), mem, dest, dest + n) && mem[dest..dest + n] == old(mem)[source..source + n]
    {
      mem := mem[..dest] + mem[source..source + n] + mem[dest + n..];
      hdrs := Spared(hdrs, dest, dest + n);
    }

    /** Sets the state of a chunk in the table and in both guards. */
    method SetState(handle: int, sig: int, ghost i: int, ghost data: seq<bv8>)
      requires Rep(chain, hdrs, handles, mem)
      requires 0 < i < |chain| && chain[i].handle == handle && sig in {MEM_FREE_SIG, MEM_ALOC_SIG, MEM_LOCK_SIG}
      requires |data| == if sig != MEM_FREE_SIG then chain[i].size else 0
      requires sig != MEM_FREE_SIG ==>
          0 <= chain[i].at + HEAD <= End(chain[i]) <= |mem| && data == mem[chain[i].at + HEAD..End(chain[i])]
      modifies `hdrs, `handles, `chain
      ensures chain == Becomes(old(chain), i, sig, data) && |handles| == |old(handles)|
      ensures Rep(chain, hdrs, handles, mem)
    {
      hide Rep;
      RepAt(chain, hdrs, handles, mem, i);
      RepBecomes(chain, hdrs, handles, mem, i, sig, data);
      var p := handles[handle].ptr;
      handles := handles[handle := handles[handle].(status := sig)];
      hdrs := hdrs[p := hdrs[p].(guard0 := sig, guard1 := sig)];
      chain := Becomes(chain, i, sig, data);
    }

    /** Locks a released chunk in place and returns where its bytes are. */
    method LockMemChunk(handle: int) returns (result: Addr)
      requires Valid() && Known(handle)
      modifies `hdrs, `handles, `chain
      ensures Valid()
      ensures result == NULL <==> old(handles)[handle].status != MEM_ALOC_SIG
      ensures result == NULL ==> chain == old(chain)
      ensures result != NULL ==> Marked(old(chain), chain, handle, MEM_ALOC_SIG, MEM_LOCK_SIG)
      ensures result != NULL ==> exists data ::
                && Chunk(handle, false, data, NULL) in old(InUse())
                && InUse() == old(InUse()) - {Chunk(handle, false, data, NULL)}
                     + {Chunk(handle, true, data, result - HEAD)}
                && 0 <= result <= result + |data| <= |mem| && mem[result..result + |data|] == data
    {
      hide Rep, Apart, Sum, Chunks;
      result := NULL;
      if handles[handle].status == MEM_ALOC_SIG {
        ghost var i := RepOf(chain, hdrs, handles, mem, handle);
        RepAt(chain, hdrs, handles, mem, i);
        ghost var b, data := chain, chain[i].data;
        BecomesLive(b, hdrs, handles, mem, i, MEM_LOCK_SIG, data);
        LiveAt(b, i);
        var hd := hdrs[handles[handle].ptr];
        if hd.guard0 == MEM_ALOC_SIG && hd.guard1 == MEM_ALOC_SIG {
          var p := handles[handle].ptr;
          SetState(handle, MEM_LOCK_SIG, i, data);
          result := p + HEAD;
        }
      }
    }

    /** Releases a locked chunk. */
    method ReleaseMemChunk(handle: int)
      requires Valid() && Known(handle)
      modifies `hdrs, `handles, `chain
      ensures Valid()
      ensures old(handles)[handle].status != MEM_LOCK_SIG ==> chain == old(chain)
      ensures old(handles)[handle].status == MEM_LOCK_SIG ==>
          Marked(old(chain), chain, handle, MEM_LOCK_SIG, MEM_ALOC_SIG)
      ensures old(handles)[handle].status == MEM_LOCK_SIG ==> exists data, at ::
                && Chunk(handle, true, data, at) in old(InUse())
                && InUse() == old(InUse()) - {Chunk(handle, true, data, at)} + {Chunk(handle, false, data, NULL)}
    {
      hide Rep, Apart, Sum, Chunks;
      if handles[handle].status == MEM_LOCK_SIG {
        ghost var i := RepOf(chain, hdrs, handles, mem, handle);
        RepAt(chain, hdrs, handles, mem, i);
        ghost var data, at := chain[i].data, chain[i].at;
        BecomesLive(chain, hdrs, handles, mem, i, MEM_ALOC_SIG, data);
        LiveAt(chain, i);
        var hd := hdrs[handles[handle].ptr];
        if hd.guard0 == MEM_LOCK_SIG && hd.guard1 == MEM_LOCK_SIG {
          SetState(handle, MEM_ALOC_SIG, i, data);
        }
      }
    }

    /** The right block's header and handle go; the left block takes its space. */
    method Absorb(l: int, r: int, ghost i: int)
      requires Core() && FreePair(chain, i) && chain[i].handle == l && chain[i + 1].handle == r
      modifies `hdrs, `handles, `last, `free, `chain
      ensures Core() && chain == Join(old(chain), i)
      ensures JoinedHeads(old(chain), i, old(hdrs), hdrs)
    {
      hide Rep, Sum, JoinedHeads, HeadOf;
      ghost var b, hdrs0 := chain, hdrs;
      Neighbours(b, hdrs, handles, mem, i);
      Neighbours(b, hdrs, handles, mem, i + 1);
      RepOrder(b, hdrs, handles, mem, i, i + 1);
      if i + 2 < |b| { RepOrder(b, hdrs, handles, mem, i + 1, i + 2); }
      var lp, rp := handles[l].ptr, handles[r].ptr;
      hdrs := hdrs[lp := hdrs[lp].(next := hdrs[rp].next)];
      ghost var hdrs1 := hdrs;
      var n := hdrs[lp].next;
      if n == NULL {
        last := lp;
      } else {
        hdrs := hdrs[n := hdrs[n].(prev := lp)];
      }
      ghost var hdrs2 := hdrs;
      hdrs := hdrs[rp := Head(0, NULL, NULL, hdrs[rp].handle, 0)];
      JoinStores(b, i, hdrs0, hdrs1, hdrs2, hdrs);
      RepJoin(b, hdrs0, handles, mem, i, hdrs);
      handles := handles[l := handles[l].(size := handles[l].size + handles[r].size + HEAD)];
      handles := handles[r := handles[r].(ptr := NULL)];
      chain := Join(b, i);
      JoinSum(b, i);
      RepSums(chain, hdrs, handles, mem);
      free := free + HEAD;
    }

    /**
     * Merges a free chunk with its free neighbours; the handle of the result, or 0 when nothing was merged or handle 0
     * took it in.
     */
    method MergeChunks(handle: int, ghost i: int) returns (result: int)
      requires Core() && 0 <= i < |chain| && chain[i].handle == handle && !Live(chain[i]) && ApartBut(chain, i)
      modifies `hdrs, `handles, `last, `free, `chain
      ensures Valid() && chain == Merged(old(chain), i)
      ensures 0 <= Into(old(chain), i) < |chain|
      ensures result == if |chain| == |old(chain)| then 0 else chain[Into(old(chain), i)].handle
      ensures PrevFree(old(chain), i) ==> old(chain)[i].at in hdrs && hdrs[old(chain)[i].at].prev == NULL
    {
      hide Rep, Sum, Apart, ApartBut, JoinedHeads;
      ghost var b, q := chain, chain[i].at;
      MergedApart(b, i);
      Neighbours(b, hdrs, handles, mem, i);
      result := 0;
      var h := handle;
      var p := hdrs[handles[h].ptr].prev;
      if p != NULL && handles[hdrs[p].handle].status == MEM_FREE_SIG {
        assert PrevFree(b, i);
        var ph := hdrs[p].handle;
        RepAt(b, hdrs, handles, mem, i);
        RepOrder(b, hdrs, handles, mem, i - 1, i);
        ghost var hdrs0 := hdrs;
        Absorb(ph, h, i - 1);
        Gone(b, i - 1, hdrs0, hdrs);
        h := ph;
        result := h;
      }
      ghost var c, k := chain, Into(b, i);
      assert c == MergedPrev(b, i) && c[k].handle == h;
      Neighbours(c, hdrs, handles, mem, k);
      var n := hdrs[handles[h].ptr].next;
      if n != NULL && handles[hdrs[n].handle].status == MEM_FREE_SIG {
        assert NextFree(c, k);
        ghost var hdrs1, handles1 := hdrs, handles;
        Absorb(h, hdrs[n].handle, k);
        if PrevFree(b, i) { JoinSpares(c, hdrs1, handles1, mem, k, hdrs, q); }
        result := h;
      }
    }

    /** Merges until nothing is left to merge. */
    method MergeAll(handle: int, ghost i: int)
      requires Core() && 0 <= i < |chain| && chain[i].handle == handle && !Live(chain[i]) && ApartBut(chain, i)
      modifies `hdrs, `handles, `last, `free, `chain
      ensures Valid() && chain == Merged(old(chain), i)
    {
      hide Rep, Sum, Apart, ApartBut;
      var h := MergeChunks(handle, i);
      ghost var k := Into(old(chain), i);
      while h != 0
        invariant Valid() && chain == Merged(old(chain), i)
        invariant h != 0 ==> 0 <= k < |chain| && chain[k].handle == h && !Live(chain[k])
        decreases h != 0
      {
        MergedIdle(chain, k);
        IdleApart(chain, k);
        h := MergeChunks(h, k);
      }
    }

    /** Returns a chunk to the free ones, with its bytes counted. */
    method GiveBack(handle: int, ghost i: int)
      requires Valid() && 0 <= i < |chain| && chain[i].handle == handle && Live(chain[i])
      modifies `hdrs, `handles, `alloced, `free, `chain
      ensures Core() && chain == Becomes(old(chain), i, MEM_FREE_SIG, []) && ApartBut(chain, i)
      ensures Chunks(chain) == Chunks(old(chain)) - {ChunkOf(old(chain)[i])}
      ensures |chain| == |old(chain)| && chain[i].handle == handle && !Live(chain[i])
    {
      hide Rep, Sum, Apart, ApartBut, Chunks, Becomes;
      RepAt(chain, hdrs, handles, mem, i);
      BecomesAt(chain, i, MEM_FREE_SIG, []);
      BecomesFree(chain, hdrs, handles, mem, i);
      RepSums(chain, hdrs, handles, mem);
      SetState(handle, MEM_FREE_SIG, i, []);
      RepSums(chain, hdrs, handles, mem);
      RepAt(chain, hdrs, handles, mem, i);
      alloced := alloced - handles[handle].size;
      free := free + handles[handle].size;
    }

    /** Frees a released chunk. */
    method FreeMemChunk(handle: int)
      requires Valid() && Known(handle)
      modifies `hdrs, `handles, `last, `alloced, `free, `chain
      ensures Valid()
      ensures old(handles)[handle].status != MEM_ALOC_SIG ==> InUse() == old(InUse())
      ensures old(handles)[handle].status == MEM_ALOC_SIG ==> exists data ::
                Chunk(handle, false, data, NULL) in old(InUse())
                && InUse() == old(InUse()) - {Chunk(handle, false, data, NULL)}
      ensures old(handles)[handle].status == MEM_ALOC_SIG ==> GivenBack(old(chain), chain, handle)
    {
      hide Rep, Sum, Apart, ApartBut, Chunks, Merged, Becomes;
      if handles[handle].status == MEM_ALOC_SIG {
        ghost var i := RepOf(chain, hdrs, handles, mem, handle);
        RepAt(chain, hdrs, handles, mem, i);
        LiveAt(chain, i);
        var hd := hdrs[handles[handle].ptr];
        if hd.guard0 == MEM_ALOC_SIG && hd.guard1 == MEM_ALOC_SIG {
          assert chain[i].handle == handle && Live(chain[i]);
          GiveBack(handle, i);
          MergedKeeps(chain, i);
          MergeAll(handle, i);
        }
      }
    }

    /** Moves a released chunk up over the free chunk after it. */
    method SlideChunkUp(chunk: Addr, ghost i: int)
      requires Core() && Slidable(chain, i) && chunk == chain[i].at
      modifies `hdrs, `mem, `handles, `last, `numSlides, `chain
      ensures numSlides == old(numSlides) + 1
      ensures Core() && chain == Slide(old(chain), i) && |mem| == |old(mem)|
    {
      hide Rep, Sum, SlidHeads, HeadOf, Spared, HeadsElsewhere, Elsewhere, Slide;
      ghost var b, hdrs0, mem0 := chain, hdrs, mem;
      SlideFacts(b, hdrs, handles, mem, i);
      SlideSum(b, i);
      numSlides := numSlides + 1;
      var f := hdrs[hdrs[chunk].next].handle;
      var next := hdrs[hdrs[chunk].next].next;
      var newchunk := chunk + handles[f].size + HEAD;
      var n := handles[hdrs[chunk].handle].size;
      var hd := hdrs[chunk];
      MoveBytes(newchunk + HEAD, chunk + HEAD, n);
      ghost var mem1 := mem;
      PutHead(newchunk, Head(hd.guard0, next, chunk, hd.handle, hd.guard1));
      SparedTwice(hdrs0, newchunk, newchunk + HEAD, newchunk + HEAD + n, newchunk, hdrs[newchunk]);
      if i + 2 < |b| {
        HeadElsewhere(hdrs0, hdrs, newchunk, newchunk + HEAD + n, next);
      }
      ghost var hdrs1 := hdrs;
      if next == NULL {
        last := newchunk;
      } else {
        hdrs := hdrs[next := hdrs[next].(prev := newchunk)];
      }
      ghost var hdrs2 := hdrs;
      HeadElsewhere(hdrs0, hdrs1, newchunk, newchunk + HEAD + n, chunk);
      hdrs := hdrs[chunk := Head(MEM_FREE_SIG, newchunk, hdrs[chunk].prev, f, MEM_FREE_SIG)];
      ghost var hs0 := handles;
      handles := handles[f := handles[f].(ptr := chunk)];
      handles := handles[hd.handle := handles[hd.handle].(ptr := newchunk)];
      SlideDone(b, hdrs0, hs0, mem0, i, hdrs1, hdrs2, hdrs, mem1, mem, handles);
      chain := Slide(b, i);
    }

    /** The owner of a locked chunk writes a byte through the pointer. */
    method Store(handle: int, offset: int, v: bv8)
      requires Valid() && 0 <= handle < |handles| && handles[handle].ptr != NULL
        && handles[handle].status == MEM_LOCK_SIG
      requires 0 <= offset < handles[handle].size
      modifies `hdrs, `mem, `chain
      ensures Valid()
      ensures exists data, at ::
          |data| == handles[handle].size && at == handles[handle].ptr && Chunk(handle, true, data, at) in old(InUse())
                && InUse() == old(InUse()) - {Chunk(handle, true, data, at)}
                     + {Chunk(handle, true, data[offset := v], at)}
    {
      hide Rep, Apart, Sum, Chunks, Spared, Elsewhere, HeadsElsewhere;
      ghost var i := RepOf(chain, hdrs, handles, mem, handle);
      RepAt(chain, hdrs, handles, mem, i);
      ghost var b, hdrs0, mem0, data := chain, hdrs, mem, chain[i].data;
      LiveAt(b, i);
      BecomesLive(b, hdrs, handles, mem, i, MEM_LOCK_SIG, data[offset := v]);
      var p := handles[handle].ptr + HEAD + offset;
      mem := mem[p := v];
      hdrs := Spared(hdrs, p, p + 1);
      Poked(hdrs0, mem0, b[i].at + HEAD, End(b[i]), p, v);
      RepStore(b, hdrs0, handles, mem0, i, hdrs, mem, data[offset := v]);
      chain := Becomes(b, i, MEM_LOCK_SIG, data[offset := v]);
    }

    /** Cuts `size` bytes and a header off the end of a free chunk, under the handle `h`. */
    method TakeEnd(f: int, h: int, size: int, ghost i: int) returns (ghost data: seq<bv8>)
      requires Core() && Splittable(chain, i, size, h) && chain[i].handle == f && 0 <= h < |handles|
      modifies `hdrs, `mem, `handles, `last, `alloced, `free, `chain
      ensures Core() && |data| == size && chain == Split(old(chain), i, size, h, data)
    {
      hide Rep, Sum, SplitHeads, HeadOf, Spared, HeadsElsewhere, Elsewhere, Splittable, Split;
      ghost var b, hdrs0, mem0 := chain, hdrs, mem;
      SplittableAt(b, i, size, h);
      Neighbours(b, hdrs, handles, mem, i);
      RepAt(b, hdrs, handles, mem, i);
      if i + 1 < |b| { Neighbours(b, hdrs, handles, mem, i + 1); RepOrder(b, hdrs, handles, mem, i, i + 1); }
      var fp := handles[f].ptr;
      var p := fp + (handles[f].size - size);
      var n := hdrs[fp].next;
      PutHead(p, Head(MEM_ALOC_SIG, n, fp, h, MEM_ALOC_SIG));
      SparedOnce(hdrs0, p, hdrs[p]);
      if i + 1 < |b| { HeadElsewhere(hdrs0, hdrs, p, p + HEAD, n); }
      ghost var hdrs1 := hdrs;
      if n == NULL {
        last := p;
      } else {
        hdrs := hdrs[n := hdrs[n].(prev := p)];
      }
      ghost var hdrs2 := hdrs;
      HeadElsewhere(hdrs0, hdrs1, p, p + HEAD, fp);
      hdrs := hdrs[fp := hdrs[fp].(next := p)];
      SplitStores(b, hdrs0, handles, mem0, i, size, h, hdrs1, hdrs2, hdrs);
      ghost var hs0 := handles;
      handles := handles[h := Handle(p, MEM_ALOC_SIG, size)];
      handles := handles[f := handles[f].(size := handles[f].size - (size + HEAD))];
      SplitDone(b, hdrs0, hs0, mem0, i, size, h, hdrs, mem, handles);
      data := mem[End(b[i]) - size..End(b[i])];
      chain := Split(b, i, size, h, data);
      alloced := alloced + size;
      free := free - (size + HEAD);
    }

    /** Allocates without sliding: from the smallest other fragment that is large enough, or from handle 0. */
    method AttemptToAlloc(size: int) returns (result: int, ghost from: int, ghost data: seq<bv8>)
      requires Valid() && 0 < size <= free && 2 * Sum(chain).lives + 1 < chunks
      requires nosplit >= HEAD || Splits(chain, size, nosplit)
      modifies `hdrs, `mem, `handles, `last, `alloced, `free, `chain
      ensures Valid()
      ensures result != 0 <==> Roomy(old(chain), size)
      ensures result == 0 ==> unchanged(this)
      ensures result != 0 ==>
          Best(old(chain), from, size) && Carved(old(chain), chain, from, size, nosplit, result, data)
    {
      hide Rep, Sum, Apart, ApartBut, Split, Splittable, Becomes, Elsewhere;
      RepSums(chain, hdrs, handles, mem);
      RepUnused(chain, hdrs, handles, mem);
      RepAt(chain, hdrs, handles, mem, 0);
      ghost var b := chain;
      var handle, unused, small := FindHandles(size);
      from, data := 0, [];
      if small == 0 {
        RepFitsNot(b, hdrs, handles, mem, size);
      } else {
        from := RepFits(b, hdrs, handles, mem, size, small);
      }
      assert size + HEAD < 0x8000_0000;
      if small == 0 && handles[0].size >= size + HEAD {
        handle := unused;
        CanSplit(b, hdrs, handles, mem, 0, size, handle);
        data := TakeEnd(0, handle, size, 0);
        SplitKeeps(b, 0, size, handle, data);
        return handle, 0, data;
      }
      if small != 0 {
        handle := small;
        RepAt(b, hdrs, handles, mem, from);
        if size >= handles[handle].size - nosplit {
          data := mem[b[from].at + HEAD..End(b[from])];
          WholeKeeps(b, hdrs, handles, mem, from, data);
          BecomesMore(b, from, data);
          SetState(handle, MEM_ALOC_SIG, from, data);
          RepSums(chain, hdrs, handles, mem);
          BecomesAt(b, from, MEM_ALOC_SIG, data);
          RepAt(chain, hdrs, handles, mem, from);
          alloced := alloced + handles[handle].size;
          free := free - handles[handle].size;
          return handle, from, data;
        } else {
          Neighbours(b, hdrs, handles, mem, from);
          NotBoth(b, from);
          var p := handles[handle].ptr;
          if hdrs[p].next != NULL && hdrs[hdrs[p].next].guard0 == MEM_FREE_SIG {
            assert false;
          }
          handle := unused;
          CanSplit(b, hdrs, handles, mem, from, size, handle);
          data := TakeEnd(small, handle, size, from);
          SplitKeeps(b, from, size, handle, data);
          IdleApart(chain, from);
          MergedIdle(chain, from);
          MergeAll(small, from);
          return handle, from, data;
        }
      }
      return 0, 0, [];
    }

    /** The scan of the handle table: an unused handle, and the last of the smallest large enough fragments. */
    method FindHandles(size: int) returns (handle: int, unused: int, small: int)
      requires |handles| == chunks && chunks > 0 && handles[0].ptr != NULL
      ensures small == 0 ==> forall g :: !Fits(handles, g, size)
      ensures small != 0 ==>
          Fits(handles, small, size) && forall g :: Fits(handles, g, size) ==> handles[small].size <= handles[g].size
      ensures forall g :: g > small && Fits(handles, g, size) ==> handles[small].size < handles[g].size
      ensures unused >= 0 && forall g :: unused < g < chunks ==> handles[g].ptr != NULL
      ensures (exists g :: 0 < g < chunks && handles[g].ptr == NULL) ==>
          0 < unused < chunks && handles[unused].ptr == NULL
    {
      handle, unused, small := 0, 0, 0;
      while handle < chunks
        invariant 0 <= handle <= chunks
        invariant small == 0 ==> forall g :: Fits(handles, g, size) ==> g >= handle
        invariant small != 0 ==>
            Fits(handles, small, size)
            && forall g :: Fits(handles, g, size) && g < handle ==>
                 handles[small].size <= handles[g].size && (g > small ==> handles[small].size < handles[g].size)
        invariant unused == 0 ==> forall g :: 0 <= g < handle ==> handles[g].ptr != NULL
        invariant unused != 0 ==> 0 < unused < chunks && handles[unused].ptr == NULL
        invariant unused >= 0 && forall g :: unused < g < handle ==> handles[g].ptr != NULL
      {
        if handles[handle].ptr != NULL {
          if handles[handle].status == MEM_FREE_SIG {
            if handles[handle].size >= size {
              if small == 0 || handles[handle].size <= handles[small].size {
                small := handle;
              }
            }
          }
        } else {
          unused := handle;
        }
        handle := handle + 1;
      }
    }

    /**
     * Slides the chunk up and merges the free space below it. Afterwards either some fragment other than handle 0 has
     * grown, or handle 0 has and nothing is left to slide, or the free space lies where the chunk was.
     */
    method SlideAndMerge(chunk: Addr, ghost c: int) returns (handle: int, ghost k: int)
      requires Valid() && Slidable(chain, c) && chunk == chain[c].at && Settled(chain, c + 1)
      modifies `hdrs, `mem, `handles, `last, `numSlides, `free, `chain
      ensures Valid() && InUse() == old(InUse()) && Squeezed(chain) == old(Squeezed(chain))
        && Sum(chain).lives == old(Sum(chain).lives)
      ensures free >= old(free) && 0 < c && |old(chain)| == |chain| + if handle == 0 && k == c then 0 else 1
      ensures handle != 0 ==>
          0 < k < |chain| && chain[k].handle == handle && !Live(chain[k]) && chain[0] == old(chain)[0]
      ensures handle == 0 && k == c ==> chunk == chain[c].at && Settled(chain, c) && chain[0] == old(chain)[0]
      ensures handle == 0 && k != c ==> chunk in hdrs && hdrs[chunk].prev == NULL && Settled(chain, 1)
      ensures 0 <= k < |chain| && (handle == 0 && k != c ==> k == 0)
      ensures forall n :: Reaches(chain, n) <==> Reaches(old(chain), n)
      ensures forall n :: Small(old(chain), n) && (k != c ==> chain[k].size < n) ==> Small(chain, n)
    {
      hide Rep, Sum, Apart, ApartBut, Chunks, Settled, Squeezed, Merged, Slide, Small, Reaches;
      ghost var b := chain;
      RepAt(b, hdrs, handles, mem, 0);
      RepTiled(b, hdrs, handles, mem);
      forall n: int ensures Reaches(Merged(Slide(b, c), c), n) <==> Reaches(b, n) { SlidReaches(b, c, |mem|, n); }
      ghost var r, k0 := Merged(Slide(b, c), c), Into(Slide(b, c), c);
      forall n: int | Small(b, n) ensures 0 <= k0 < |r| && ((k0 != c && r[k0].size >= n) || Small(r, n)) {
        SlidSmall(b, c, n);
      }
      SlideSettles(b, c);
      SlidMerged(b, c);
      SlideSum(b, c);
      SlideChunkUp(chunk, c);
      ghost var b1 := chain;
      Neighbours(b1, hdrs, handles, mem, c);
      handle := MergeChunks(hdrs[chunk].handle, c);
      k := Into(b1, c);
      RepAt(chain, hdrs, handles, mem, k);
    }

    /** Allocates without sliding, and says what the new chunk is. */
    method Attempt(size: int) returns (result: int)
      requires Valid() && 0 < size <= free && Sum(chain).lives < chunks / 2
      requires nosplit >= HEAD || Splits(chain, size, nosplit)
      modifies `hdrs, `mem, `handles, `last, `alloced, `free, `chain
      ensures Valid()
      ensures result != 0 <==> Roomy(old(chain), size)
      ensures result == 0 ==> unchanged(this)
      ensures result != 0 ==>
          CarvedOut(old(chain), chain, size, nosplit, result) && Grants(old(chain), chain, size, nosplit, result)
          && Squeezed(old(chain)) >= size + HEAD
    {
      hide Rep, Sum, Apart, ApartBut, Chunks, Carved, Best, Roomy, Squeezed, Grants;
      ghost var b, h0, t0, m0 := chain, hdrs, handles, mem;
      ghost var from, data;
      result, from, data := AttemptToAlloc(size);
      if result != 0 {
        Granted(b, h0, t0, m0, chain, from, size, nosplit, result, data);
      }
    }

    /**
     * Slides released chunks up, from the last one down, until there is room: exactly when between two locked chunks,
     * or before the first or after the last, the free space comes to a fragment with a header to spare.
     */
    method SlideForRoom(size: int) returns (result: int)
      requires Valid() && nosplit >= HEAD && 0 < size <= free && Sum(chain).lives < chunks / 2 && !Roomy(chain, size)
      modifies `hdrs, `mem, `handles, `last, `alloced, `free, `chain, `numSlides
      ensures Valid()
      ensures result != 0 <==> Reaches(old(chain), size + HEAD)
      ensures result != 0 ==>
          Grants(old(chain), chain, size, nosplit, result) && Squeezed(old(chain)) >= size + HEAD
      ensures result == 0 ==> Slid(old(chain), chain, size) && free >= old(free)
    {
      hide Rep, Sum, Apart, ApartBut, Chunks, Roomy, Squeezed, NoneLocked, Settled, Grants, Small, Reaches, CarvedOut;
      result := 0;
      var chunk := last;
      ghost var b, c := chain, |chain| - 1;
      AtTheEnd(chain);
      RepAt(chain, hdrs, handles, mem, c);
      NotRoomy(chain, size);
      while chunk != NULL
        invariant Valid() && old(free) <= free && Small(chain, size + HEAD)
        invariant InUse() == old(InUse()) && Sum(chain).lives == old(Sum(chain).lives)
          && Squeezed(chain) == old(Squeezed(chain))
        invariant forall n :: Reaches(chain, n) <==> Reaches(b, n)
        invariant chunk != NULL ==> 0 <= c < |chain| && chunk == chain[c].at && Settled(chain, c + 1)
        invariant chunk == NULL ==> Settled(chain, 1)
        decreases |chain|, if chunk == NULL then 0 else c + 1
      {
        Neighbours(chain, hdrs, handles, mem, c);
        StillSettled(chain, c);
        var hd := hdrs[chunk];
        if hd.guard0 == MEM_ALOC_SIG && hd.next != NULL && hdrs[hd.next].guard0 == MEM_FREE_SIG {
          var handle;
          ghost var k;
          handle, k := SlideAndMerge(chunk, c);
          RepAt(chain, hdrs, handles, mem, 0);
          if handle != 0 {
            RepAt(chain, hdrs, handles, mem, k);
            if handles[handle].size >= size + HEAD {
              result := Retry(b, k, size);
              return;
            } else {
              chunk := last;
              c := |chain| - 1;
              AtTheEnd(chain);
              Neighbours(chain, hdrs, handles, mem, c);
            }
          } else {
            if handles[0].size >= size + HEAD {
              result := Retry(b, 0, size);
              return;
            }
            if k == c { Neighbours(chain, hdrs, handles, mem, c); }
          }
        }
        chunk := hdrs[chunk].prev;
        c := c - 1;
      }
      RepTiled(chain, hdrs, handles, mem);
      SettledReaches(chain, |mem|, size + HEAD);
    }

    /** The fragment `k` has become large enough: the second attempt succeeds. */
    method Retry(ghost b: Chain, ghost k: int, size: int) returns (result: int)
      requires Valid() && nosplit >= HEAD && 0 < size <= free && Sum(chain).lives < chunks / 2
      requires 0 <= k < |chain| && !Live(chain[k]) && chain[k].size >= size + HEAD
      requires Chunks(chain) == Chunks(b) && Squeezed(chain) == Squeezed(b)
        && forall n :: Reaches(chain, n) <==> Reaches(b, n)
      modifies `hdrs, `mem, `handles, `last, `alloced, `free, `chain
      ensures Valid() && result != 0
      ensures Grants(b, chain, size, nosplit, result) && Squeezed(b) >= size + HEAD && Reaches(b, size + HEAD)
    {
      hide Rep, Sum, Apart, ApartBut, Chunks, Roomy, Squeezed, Grants, Reaches, CarvedOut;
      ghost var c := chain;
      RepTiled(chain, hdrs, handles, mem);
      FragmentReaches(chain, |mem|, k, size + HEAD);
      IsRoomy(chain, k, size);
      result := Attempt(size);
      GrantsAlike(b, c, chain, size, nosplit, result);
    }

    /**
     * Allocates `size` bytes: at once when a fragment is large enough, else after sliding, exactly when somewhere
     * between two locked chunks the free space comes to enough.
     */
    method AllocMemChunk(size: int) returns (result: int)
      requires Valid() && Sum(chain).lives < chunks / 2
      requires nosplit >= HEAD || (Roomy(chain, size) && Splits(chain, size, nosplit))
      modifies this
      ensures Valid()
      ensures result != 0 <==>
          0 < size <= old(free) && (Roomy(old(chain), size) || Reaches(old(chain), size + HEAD))
      ensures result != 0 ==> Grants(old(chain), chain, size, nosplit, result)
      ensures result != 0 ==> Squeezed(old(chain)) >= size + HEAD
      ensures NoneLocked(old(chain)) && 0 < size <= old(free) && Squeezed(old(chain)) >= size + HEAD ==> result != 0
      ensures 0 < size <= old(free) && Roomy(old(chain), size) ==> CarvedOut(old(chain), chain, size, nosplit, result)
      ensures result == 0 && 0 < size <= old(free) ==> Slid(old(chain), chain, size) && free >= old(free)
      ensures !(0 < size <= old(free)) ==> unchanged(this)
      ensures 0 < size <= old(free) ==> numAllocs == old(numAllocs) + 1
    {
      hide Rep, Sum, Apart, ApartBut, Roomy, Squeezed, NoneLocked, Grants, Slid, Reaches, CarvedOut;
      if size <= 0 {
        return 0;
      }
      if free < size {
        return 0;
      }
      numAllocs := numAllocs + 1;
      ghost var b := chain;
      result := Attempt(size);
      if result == 0 {
        result := SlideForRoom(size);
        if result == 0 { NothingLeft(b, chain, hdrs, handles, mem, size); }
      }
    }
  }

  /** All has been slid that can be, no fragment is large enough, and nothing in use has changed. */
  ghost predicate Slid(b: Chain, c: Chain, size: int) {
    && Chunks(c) == Chunks(b) && Squeezed(c) == Squeezed(b) && (forall n :: Reaches(c, n) <==> Reaches(b, n))
    && Settled(c, 1) && Small(c, size + HEAD) && Sum(c).lives == Sum(b).lives
  }

  /** When nothing is locked, it is all in handle 0. */
  lemma NothingLeft(b: Chain, c: Chain, hdrs: Heap, hs: seq<Handle>, mem: seq<bv8>, size: int)
    requires Rep(c, hdrs, hs, mem) && Apart(c) && Slid(b, c, size)
    ensures NoneLocked(b) ==> Squeezed(b) < size + HEAD
  {
    RepTiled(c, hdrs, hs, mem);
    BlockOf(c, |mem|, 0);
    Exhausted(b, c, hdrs, hs, mem);
  }

  lemma AtTheEnd(b: Chain)
    ensures Settled(b, |b| - 1) && Settled(b, |b|)
  {
  }

  lemma SplittableAt(b: Chain, i: int, size: int, h: int)
    requires Splittable(b, i, size, h)
    ensures 0 <= i < |b| && !Live(b[i]) && 0 <= size && b[i].size >= size + HEAD && b[i].handle != h
  {
  }

  lemma SparedOnce(hdrs: Heap, p: Addr, hd: Head)
    ensures HeadsElsewhere(hdrs, Spared(hdrs, p, p + HEAD)[p := hd], p, p + HEAD)
  {
  }

  /** One byte changes between `lo` and `hi`. */
  lemma Poked(hdrs: Heap, mem: seq<bv8>, lo: Addr, hi: Addr, p: Addr, v: bv8)
    requires 0 <= lo <= p < hi <= |mem|
    ensures Elsewhere(mem, mem[p := v], lo, hi) && HeadsElsewhere(hdrs, Spared(hdrs, p, p + 1), lo, hi)
    ensures mem[p := v][lo..hi] == mem[lo..hi][p - lo := v]
  {
  }

  /** What malloc leaves in memory. */
  method Garbage(n: nat) returns (mem: seq<bv8>)
    ensures |mem| == n
  {
    mem := *;
    if |mem| != n {
      mem := seq(n, _ => 0);
    }
  }

  /** A fresh handle table: only handle 0 is set. */
  method FirstHandles(n: int, size: int) returns (handles: seq<Handle>)
    requires n >= 1
    ensures |handles| == n && handles[0] == Handle(0, MEM_FREE_SIG, size)
    ensures forall i :: 0 < i < n ==> handles[i].ptr == NULL
  {
    handles := [];
    for i := 0 to n
      invariant |handles| == i && forall j :: 0 <= j < i ==> handles[j].ptr == NULL
    {
      var status, size: int := *, *;
      handles := handles + [Handle(NULL, status, size)];
    }
    handles := handles[0 := Handle(0, MEM_FREE_SIG, size)];
  }

  // ---- requests that are refused although there is room ----

  /** Handle 0 with `room` bytes, and `n` released chunks of `z` bytes. */
  ghost predicate Alike(b: Chain, n: nat, room: int, z: int) {
    && |b| == n + 1 && !Live(b[0]) && b[0].size == room && z > 0
    && Sum(b).free == room && Sum(b).frees == 1 && Sum(b).lives == n
    && forall i :: 1 <= i <= n ==> b[i].sig == MEM_ALOC_SIG && b[i].size == z
  }

  lemma NoChunks(b: Chain, total: int, z: int)
    requires b == [Block(0, 0, MEM_FREE_SIG, total - HEAD, [])] && z > 0
    ensures Alike(b, 0, total - HEAD, z)
  {
    SumOne(b[0]);
    assert b == [b[0]];
  }

  lemma OneMore(b: Chain, c: Chain, n: nat, room: int, z: int, nosplit: int, h: int)
    requires Alike(b, n, room, z) && CarvedOut(b, c, z, nosplit, h)
    ensures Alike(c, n + 1, room - z - HEAD, z) && c[1].handle == h && forall i :: 1 <= i <= n ==> c[i + 1] == b[i]
  {
    hide Sum;
    var from, data :| Best(b, from, z) && Carved(b, c, from, z, nosplit, h, data);
    assert from == 0;
    SplitSum(b, 0, z, h, data);
  }

  lemma NoFragment(b: Chain, n: nat, room: int, z: int, nosplit: int)
    requires Alike(b, n, room, z)
    ensures Splits(b, z, nosplit)
  {
  }

  /** One chunk from a pool that holds only chunks of its size. */
  method AllocOne(pool: Pool, z: int, ghost n: nat, ghost room: int) returns (h: int)
    requires pool.Valid() && Alike(pool.chain, n, room, z) && room >= z + HEAD && n < pool.chunks / 2
    modifies pool
    ensures pool.Valid() && Alike(pool.chain, n + 1, room - z - HEAD, z) && pool.chain[1].handle == h
    ensures forall i :: 1 <= i <= n ==> pool.chain[i + 1] == old(pool.chain)[i]
  {
    hide Rep, Apart, Sum, CarvedOut, Grants, Squeezed, NoneLocked, Chunks, Splits, Slid, Reaches;
    ghost var b := pool.chain;
    IsRoomy(b, 0, z);
    NoFragment(b, n, room, z, pool.nosplit);
    var r := pool.AllocMemChunk(z);
    h := r;
    OneMore(b, pool.chain, n, room, z, pool.nosplit, h);
  }

  /** Frees the chunk `k`, whose neighbours are in use. */
  method FreeOne(pool: Pool, h: int, ghost k: int)
    requires pool.Valid() && 1 <= k < |pool.chain| && pool.chain[k].handle == h && pool.chain[k].sig == MEM_ALOC_SIG
    requires Live(pool.chain[k - 1]) && (k + 1 < |pool.chain| ==> Live(pool.chain[k + 1]))
    modifies pool
    ensures pool.Valid() && pool.chain == Becomes(old(pool.chain), k, MEM_FREE_SIG, [])
    ensures Sum(pool.chain)
        == Plus(old(Sum(pool.chain)), Tally(old(pool.chain)[k].size, -old(pool.chain)[k].size, 1, -1))
  {
    hide Rep, Apart, Sum, Chunks;
    ghost var b := pool.chain;
    RepAt(b, pool.hdrs, pool.handles, pool.mem, k);
    RepTiled(b, pool.hdrs, pool.handles, pool.mem);
    BecomesFree(b, pool.hdrs, pool.handles, pool.mem, k);
    pool.FreeMemChunk(h);
    OnlyOne(b, pool.chain, |pool.mem|, h, k);
  }

  lemma OnlyOne(b: Chain, c: Chain, total: int, h: int, k: int)
    requires Tiled(b, total) && GivenBack(b, c, h) && 1 <= k < |b| && b[k].handle == h
    requires Live(b[k - 1]) && (k + 1 < |b| ==> Live(b[k + 1]))
    ensures c == Becomes(b, k, MEM_FREE_SIG, [])
  {
    var i :| 0 <= i < |b| && b[i].handle == h && Live(b[i]) && c == Merged(Becomes(b, i, MEM_FREE_SIG, []), i);
    if i < k {
      PairOf(b, total, i, k);
    } else if k < i {
      PairOf(b, total, k, i);
    }
  }

  /**
   * Four chunks, two of them freed: a request for one byte more than is free is refused, though nothing is locked and
   * squeezing would make room for it.
   */
  method RefusedWithRoom() returns (pool: Pool, size: int, result: int)
    ensures pool.Valid() && NoneLocked(pool.chain) && size > 0 && Squeezed(pool.chain) >= size + HEAD && result == 0
  {
    hide Rep, Apart, Sum, Chunks, NoneLocked, Squeezed, Slid, Reaches;
    pool := new Pool(5, 1000, 0);
    NoChunks(pool.chain, |pool.mem|, 1);
    ghost var room := |pool.mem| - HEAD;
    var h1 := AllocOne(pool, 1, 0, room);
    var h2 := AllocOne(pool, 1, 1, room - 33);
    var h3 := AllocOne(pool, 1, 2, room - 66);
    var h4 := AllocOne(pool, 1, 3, room - 99);
    FreeOne(pool, h3, 2);
    FreeOne(pool, h1, 4);
    size := pool.free + 1;
    assert NoneLocked(pool.chain) && Squeezed(pool.chain) >= size + HEAD by { ThreeFree(pool.chain); }
    ghost var b := pool.chain;
    var r := pool.AllocMemChunk(size);
    NoneLockedAlike(b, pool.chain);
    result := r;
  }

  lemma ThreeFree(b: Chain)
    requires |b| == 5 && Sum(b).frees >= 3
      && forall i :: 0 <= i < 5 ==> b[i].sig == MEM_FREE_SIG || b[i].sig == MEM_ALOC_SIG
    ensures NoneLocked(b) && Squeezed(b) >= Sum(b).free + 1 + HEAD
  {
  }

  /**
   * A pool set up with a negative `nosplit`, two chunks, the first of them freed: a request for as much as it had finds
   * its fragment too large to be used as it is, and a split leaves less than nothing after the new header.
   */
  method SplitWithoutRoom() returns (pool: Pool, size: int, small: int)
    ensures pool.Valid() && 0 < size <= pool.free && Sum(pool.chain).lives < pool.chunks / 2
    ensures Fits(pool.handles, small, size) && !(size >= pool.handles[small].size - pool.nosplit)
    ensures pool.handles[small].size - (size + HEAD) < 0 && !Splits(pool.chain, size, pool.nosplit)
  {
    hide Rep, Apart, Sum, Chunks, NoneLocked, Squeezed, Splits;
    pool := new Pool(2, 1000, -1);
    NoChunks(pool.chain, |pool.mem|, 1);
    ghost var room := |pool.mem| - HEAD;
    var h1 := AllocOne(pool, 1, 0, room);
    var h2 := AllocOne(pool, 1, 1, room - 33);
    FreeOne(pool, h1, 2);
    size := 1;
    ghost var b := pool.chain;
    RepAt(b, pool.hdrs, pool.handles, pool.mem, 0);
    RepAt(b, pool.hdrs, pool.handles, pool.mem, 2);
    assert Fits(pool.handles, b[2].handle, size);
    var handle, unused;
    handle, unused, small := pool.FindHandles(size);
    BadSplit(b);
  }

  lemma BadSplit(b: Chain)
    requires |b| == 3 && !Live(b[2]) && b[2].size == 1 && Live(b[1])
    ensures !Splits(b, 1, -1)
  {
    assert Best(b, 2, 1);
  }

  // ---- a fragment that has grown, but is not tried ----

  /** Handle 0, a locked chunk, and a released one between two free ones. */
  ghost predicate Parted(b: Chain) {
    && |b| == 5 && !Live(b[0]) && b[1].sig == MEM_LOCK_SIG && !Live(b[2]) && b[3].sig == MEM_ALOC_SIG && !Live(b[4])
    && b[0].size == 46 && b[1].size == b[2].size == b[3].size == b[4].size == 100
  }

  lemma PartedRuns(b: Chain)
    requires Parted(b)
    ensures !Reaches(b, 252) && Reaches(b, 232) && !Roomy(b, 220)
  {
    assert b[..5] == b && b[..0] == [];
    RunAt(b, 0);
    RunAt(b, 1);
    RunAt(b, 2);
    RunAt(b, 3);
    RunAt(b, 4);
    assert Run(b[..0]) == -HEAD && Run(b[..1]) == 46 && Run(b[..2]) == -HEAD && Run(b[..3]) == 100;
    assert Run(b[..4]) == 100 && Run(b[..5]) == 232;
    hide Run;
    forall k | 0 <= k <= |b| ensures Run(b[..k]) < 252 {
      assert k == 0 || k == 1 || k == 2 || k == 3 || k == 4 || k == 5;
    }
  }

  /** A locked chunk bounds the fragment before it. */
  lemma LockedBounds(b: Chain, c: Chain, total: int, total': int)
    requires Tiled(b, total) && Tiled(c, total') && Chunks(c) == Chunks(b) && |b| > 1 && b[1].sig == MEM_LOCK_SIG
    ensures c[0].size <= b[0].size
  {
    assert ChunkOf(b[1]) in Chunks(c);
    var j :| 0 <= j < |c| && Live(c[j]) && ChunkOf(c[j]) == ChunkOf(b[1]);
    hide Tiled, Chunks;
    BlockOf(c, total', 0);
    BlockOf(b, total, 0);
    PairOf(c, total', 0, j);
    PairOf(b, total, 0, 1);
  }

  /** So what the free space comes to lies elsewhere. */
  lemma GrownElsewhere(b: Chain, c: Chain, total: int, total': int)
    requires Parted(b) && Tiled(b, total) && Tiled(c, total') && Apart(c) && Slid(b, c, 220)
    ensures Roomy(c, 220) && Sum(c).free >= 220
  {
    PartedRuns(b);
    LockedBounds(b, c, total, total');
    SettledReaches(c, total', 232);
    hide Tiled, Apart, Chunks, Settled, Squeezed, Reaches;
    var i :| 0 <= i < |c| && !Live(c[i]) && c[i].size >= 232;
    assert Roomy(c, 220);
    RoomySqueezed(c, total', 220);
  }

  /**
   * A pool with a locked chunk refuses a request, and grants the same request right afterwards: the first call has made
   * a fragment that is large enough, but asks for room for a header besides before it tries.
   */
  method RefusedThenGranted() returns (pool: Pool, first: int, second: int)
    ensures pool.Valid() && first == 0 && second != 0
  {
    hide Rep, Apart, Sum, Chunks, NoneLocked, Squeezed, Slid, Reaches, Roomy, CarvedOut, Grants, Settled, Small, Tiled;
    pool := PartedPool();
    ghost var b, total := pool.chain, |pool.mem|;
    PartedRuns(b);
    RepTiled(b, pool.hdrs, pool.handles, pool.mem);
    first := pool.AllocMemChunk(220);
    RepTiled(pool.chain, pool.hdrs, pool.handles, pool.mem);
    GrownElsewhere(b, pool.chain, total, |pool.mem|);
    SlidLives(b, pool.chain);
    second := pool.AllocMemChunk(220);
  }

  lemma SlidLives(b: Chain, c: Chain)
    requires Slid(b, c, 220)
    ensures Sum(c).lives == Sum(b).lives
  {
  }

  /** Four chunks of 100 bytes, two of them freed, and the last one locked. */
  method PartedPool() returns (pool: Pool)
    ensures fresh(pool) && pool.Valid() && Parted(pool.chain) && pool.nosplit == HEAD && pool.chunks == 8
      && Sum(pool.chain).lives == 2 && Sum(pool.chain).free == 246
  {
    hide Rep, Apart, Sum, Chunks, NoneLocked, Squeezed;
    pool := new Pool(4, 350, 0);
    NoChunks(pool.chain, |pool.mem|, 100);
    var h1 := AllocOne(pool, 100, 0, 574);
    var h2 := AllocOne(pool, 100, 1, 442);
    var h3 := AllocOne(pool, 100, 2, 310);
    var h4 := AllocOne(pool, 100, 3, 178);
    FreeOne(pool, h3, 2);
    FreeOne(pool, h1, 4);
    LockOne(pool, h4, 1);
  }

  /** Locks the chunk `k`. */
  method LockOne(pool: Pool, h: int, ghost k: int)
    requires pool.Valid() && 1 <= k < |pool.chain| && pool.chain[k].handle == h && pool.chain[k].sig == MEM_ALOC_SIG
    modifies pool
    ensures pool.Valid() && pool.chain == old(pool.chain)[k := old(pool.chain)[k].(sig := MEM_LOCK_SIG)]
    ensures Sum(pool.chain) == old(Sum(pool.chain)) && |pool.mem| == |old(pool.mem)| && pool.free == old(pool.free)
  {
    hide Rep, Apart, Sum, Chunks;
    ghost var b := pool.chain;
    RepAt(b, pool.hdrs, pool.handles, pool.mem, k);
    RepTiled(b, pool.hdrs, pool.handles, pool.mem);
    ghost var total := |pool.mem|;
    var r := pool.LockMemChunk(h);
    MarkedAt(b, pool.chain, total, h, k);
    BecomesSum(b, k, MEM_LOCK_SIG, b[k].data);
  }

  lemma MarkedAt(b: Chain, c: Chain, total: int, h: int, k: int)
    requires Tiled(b, total) && 0 <= k < |b| && b[k].handle == h && Marked(b, c, h, MEM_ALOC_SIG, MEM_LOCK_SIG)
    ensures c == b[k := b[k].(sig := MEM_LOCK_SIG)]
  {
    var i :| 0 <= i < |b| && b[i].handle == h && b[i].sig == MEM_ALOC_SIG && c == b[i := b[i].(sig := MEM_LOCK_SIG)];
    assert i == k;
  }
}
