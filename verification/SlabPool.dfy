/** The slab pool of objects: free lists threaded through the objects, and loading a saved pool at other addresses. */
module SlabPool {
  type Addr = int

  const NULL: Addr := 0

  /** Objects in a slab. */
  const OBJ_NUM := 128

  /** The size of a slab's header. */
  const HEAD := 24

  type Bytes = seq<bv8>

  datatype Header = Header(free: Addr, id: int, next: Addr)

  /** Memory: slab headers, the word behind each object, and the objects' content. */
  datatype Store = Store(hdr: map<Addr, Header>, words: map<Addr, Addr>, data: map<Addr, Bytes>)

  /** A slab as its user sees it: the free objects in list order, and the content of all. */
  datatype Slab = Slab(id: int, free: seq<int>, data: seq<Bytes>)

  /** The object `k` of the slab at `a`, when an object and its word take `step` bytes. */
  function ObjAt(a: Addr, k: int, step: nat): Addr {
    a + HEAD + k * step
  }

  function EndOf(a: Addr, step: nat): Addr {
    ObjAt(a, OBJ_NUM, step)
  }

  /** Two slabs do not overlap. */
  predicate Beside(a: Addr, b: Addr, step: nat) {
    EndOf(a, step) <= b || EndOf(b, step) <= a
  }

  lemma ObjIn(a: Addr, k: int, step: nat)
    requires 0 <= k < OBJ_NUM && step > 0
    ensures a < ObjAt(a, k, step) && ObjAt(a, k, step) + step <= EndOf(a, step)
  {
    Further(k, OBJ_NUM, step);
    assert k * step >= 0;
  }

  lemma ObjOne(a: Addr, j: int, k: int, step: nat)
    requires step > 0
    ensures ObjAt(a, j, step) == ObjAt(a, k, step) <==> j == k
  {
    if j < k {
      Further(j, k, step);
    } else if k < j {
      Further(k, j, step);
    }
  }

  lemma Further(j: int, k: int, step: nat)
    requires step > 0 && j < k
    ensures j * step + step <= k * step
  {
    var d := k - 1 - j;
    assert d * step >= 0;
    assert k == j + 1 + d;
  }

  lemma ObjsApart(a: Addr, b: Addr, j: int, k: int, step: nat)
    requires step > 0 && Beside(a, b, step) && 0 <= j < OBJ_NUM && 0 <= k < OBJ_NUM
    ensures ObjAt(a, j, step) != ObjAt(b, k, step)
  {
    ObjIn(a, j, step);
    ObjIn(b, k, step);
  }

  /** The free objects: each once. */
  ghost predicate Listed(free: seq<int>) {
    && (forall j :: 0 <= j < |free| ==> 0 <= free[j] < OBJ_NUM)
    && (forall i, j :: 0 <= i < j < |free| ==> free[i] != free[j])
  }

  function First(a: Addr, free: seq<int>, step: nat): Addr {
    if free == [] then NULL else ObjAt(a, free[0], step)
  }

  /** The word behind the object `k`: the next free object, or for a busy one its slab. */
  ghost predicate WordOk(w: Addr, a: Addr, free: seq<int>, k: int, step: nat) {
    && (k !in free ==> w == a)
    && (forall j :: 0 <= j < |free| && free[j] == k ==> w == First(a, free[j + 1..], step))
  }

  /** The memory of the slab at `a` says `s`. */
  ghost predicate Shows(m: Store, a: Addr, s: Slab, step: nat) {
    && a > 0 && a in m.hdr && m.hdr[a].id == s.id && m.hdr[a].free == First(a, s.free, step)
    && Listed(s.free) && |s.data| == OBJ_NUM
    && forall k :: 0 <= k < OBJ_NUM ==> ObjOk(m, a, s, k, step)
  }

  ghost predicate ObjOk(m: Store, a: Addr, s: Slab, k: int, step: nat) {
    && 0 <= k < |s.data| && ObjAt(a, k, step) in m.words && ObjAt(a, k, step) in m.data
    && m.data[ObjAt(a, k, step)] == s.data[k] && WordOk(m.words[ObjAt(a, k, step)], a, s.free, k, step)
  }

  /** The pool: its slabs in list order, and which one served last, if any. */
  datatype Pool = Pool(slabs: seq<Slab>, recent: int)

  /** The slab list in memory. */
  ghost predicate Chained(m: Store, chain: seq<Addr>, head: Addr) {
    && head == (if chain == [] then NULL else chain[0])
    && forall i :: 0 <= i < |chain| ==>
         chain[i] in m.hdr && m.hdr[chain[i]].next == if i + 1 < |chain| then chain[i + 1] else NULL
  }

  ghost predicate Spread(chain: seq<Addr>, step: nat) {
    && (forall i :: 0 <= i < |chain| ==> chain[i] > 0)
    && (forall i, j :: 0 <= i < j < |chain| ==> Beside(chain[i], chain[j], step) && chain[i] != chain[j])
  }

  ghost predicate ShowsAll(m: Store, chain: seq<Addr>, slabs: seq<Slab>, step: nat) {
    && |slabs| == |chain|
    && forall i :: 0 <= i < |chain| ==> Shows(m, chain[i], slabs[i], step)
  }

  /** Ids count down from the list's head. */
  ghost predicate Numbered(slabs: seq<Slab>) {
    forall i :: 0 <= i < |slabs| ==> slabs[i].id == |slabs| - 1 - i
  }

  function FreeCount(slabs: seq<Slab>): nat {
    if slabs == [] then 0 else |slabs[0].free| + FreeCount(slabs[1..])
  }

  /** The first slab from `i` on with a free object. */
  function Serving(slabs: seq<Slab>, i: nat): (r: nat)
    ensures r >= i && (i <= |slabs| ==> r <= |slabs|)
    ensures forall j :: i <= j < r && j < |slabs| ==> slabs[j].free == []
    ensures r < |slabs| ==> slabs[r].free != []
    decreases |slabs| - i
  {
    if i >= |slabs| || slabs[i].free != [] then i else Serving(slabs, i + 1)
  }

  /** No slab has a free object. */
  ghost predicate NoneFree(slabs: seq<Slab>) {
    forall i :: 0 <= i < |slabs| ==> slabs[i].free == []
  }

  /** The slab an allocation is served from; the number of slabs when a new one is needed. */
  function ServedBy(p: Pool): nat {
    if 0 <= p.recent < |p.slabs| && p.slabs[p.recent].free != [] then p.recent else Serving(p.slabs, 0)
  }

  /** All objects free, in address order. */
  function AllFree(): (r: seq<int>)
    ensures |r| == OBJ_NUM && forall k :: 0 <= k < OBJ_NUM ==> r[k] == k
  {
    seq(OBJ_NUM, k => k)
  }

  /** A new slab comes first in the list. */
  function Grown(p: Pool, junk: seq<Bytes>): Pool {
    Pool([Slab(|p.slabs|, AllFree(), junk)] + p.slabs, if p.recent < 0 then -1 else p.recent + 1)
  }

  /** The first free object of the slab `i` is taken. */
  function Taken(p: Pool, i: int): Pool
    requires 0 <= i < |p.slabs| && p.slabs[i].free != []
  {
    p.(slabs := p.slabs[i := p.slabs[i].(free := p.slabs[i].free[1..])])
  }

  /** The object `k` of the slab `i` is given back. */
  function Given(p: Pool, i: int, k: int): Pool
    requires 0 <= i < |p.slabs|
  {
    p.(slabs := p.slabs[i := p.slabs[i].(free := [k] + p.slabs[i].free)])
  }

  /** What an allocation does to the pool; `junk` is the content of a new slab. */
  function Allocated(p: Pool, junk: seq<Bytes>): Pool {
    var i := ServedBy(p);
    if i < |p.slabs| then Taken(p.(recent := i), i) else Taken(Grown(p, junk), 0)
  }

  /** Where an allocation takes its object: the slab's place in the list afterwards, and the object. */
  function Place(p: Pool): (int, int) {
    var i := ServedBy(p);
    if i < |p.slabs| then (i, p.slabs[i].free[0]) else (0, 0)
  }

  // ---- memory ----

  /** Nothing of the slab at `a` changes. */
  ghost predicate Untouched(m: Store, m': Store, a: Addr, step: nat) {
    && (a in m.hdr ==> a in m'.hdr && m'.hdr[a] == m.hdr[a])
    && forall k :: 0 <= k < OBJ_NUM ==> SameObj(m, m', ObjAt(a, k, step))
  }

  predicate SameObj(m: Store, m': Store, o: Addr) {
    (o in m.words ==> o in m'.words && m'.words[o] == m.words[o])
      && (o in m.data ==> o in m'.data && m'.data[o] == m.data[o])
  }

  lemma ShowsKept(m: Store, m': Store, a: Addr, s: Slab, step: nat)
    requires Shows(m, a, s, step) && Untouched(m, m', a, step)
    ensures Shows(m', a, s, step)
  {
    forall k | 0 <= k < OBJ_NUM ensures ObjOk(m', a, s, k, step) {
      assert ObjOk(m, a, s, k, step);
      assert SameObj(m, m', ObjAt(a, k, step));
    }
  }

  /** Taking the first free object: the head of the list moves on, and the object's word leads to the slab. */
  lemma TakenShows(m: Store, m': Store, a: Addr, s: Slab, step: nat)
    requires Shows(m, a, s, step) && s.free != [] && step > 0
    requires var o := ObjAt(a, s.free[0], step);
             o in m.words && m' == m.(hdr := m.hdr[a := m.hdr[a].(free := m.words[o])], words := m.words[o := a])
    ensures Shows(m', a, s.(free := s.free[1..]), step)
  {
    var k0, t := s.free[0], s.(free := s.free[1..]);
    assert ObjOk(m, a, s, k0, step);
    HeadWord(m.words[ObjAt(a, k0, step)], a, s.free, k0, step);
    forall k | 0 <= k < OBJ_NUM ensures ObjOk(m', a, t, k, step) {
      assert ObjOk(m, a, s, k, step);
      ObjOne(a, k, k0, step);
      hide ObjAt, WordOk;
      if k == k0 {
        TakenWord(a, s.free, step);
      } else {
        WordTail(m.words[ObjAt(a, k, step)], a, s.free, k, step);
      }
    }
  }

  lemma TakenWord(a: Addr, free: seq<int>, step: nat)
    requires Listed(free) && free != []
    ensures WordOk(a, a, free[1..], free[0], step)
  {
    forall j | 0 <= j < |free[1..]| ensures free[1..][j] != free[0] { assert free[1..][j] == free[j + 1]; }
  }

  lemma HeadWord(w: Addr, a: Addr, free: seq<int>, k: int, step: nat)
    requires WordOk(w, a, free, k, step) && Listed(free) && free != [] && k == free[0]
    ensures w == First(a, free[1..], step) && Listed(free[1..])
  {
    assert free[0 + 1..] == free[1..];
  }

  lemma WordTail(w: Addr, a: Addr, free: seq<int>, k: int, step: nat)
    requires WordOk(w, a, free, k, step) && free != [] && k != free[0]
    ensures WordOk(w, a, free[1..], k, step)
  {
    var t := free[1..];
    if k in free {
      var i :| 0 <= i < |free| && free[i] == k;
      assert t[i - 1] == k;
    }
    forall j | 0 <= j < |t| && t[j] == k ensures w == First(a, t[j + 1..], step) {
      assert free[j + 1] == k;
      assert t[j + 1..] == free[j + 1 + 1..];
    }
  }

  /** Giving an object back: it leads to the former head of the list. */
  lemma GivenShows(m: Store, m': Store, a: Addr, s: Slab, k0: int, step: nat)
    requires Shows(m, a, s, step) && 0 <= k0 < OBJ_NUM && k0 !in s.free && step > 0
    requires var o := ObjAt(a, k0, step);
             m' == m.(words := m.words[o := m.hdr[a].free], hdr := m.hdr[a := m.hdr[a].(free := o)])
    ensures Shows(m', a, s.(free := [k0] + s.free), step)
  {
    var t := s.(free := [k0] + s.free);
    GivenWord(a, s.free, k0, step);
    forall k | 0 <= k < OBJ_NUM ensures ObjOk(m', a, t, k, step) {
      assert ObjOk(m, a, s, k, step);
      ObjOne(a, k, k0, step);
      hide ObjAt, WordOk;
      if k != k0 {
        WordHead(m.words[ObjAt(a, k, step)], a, s.free, k, k0, step);
      }
    }
  }

  lemma GivenWord(a: Addr, free: seq<int>, k0: int, step: nat)
    requires Listed(free) && 0 <= k0 < OBJ_NUM && k0 !in free
    ensures Listed([k0] + free) && WordOk(First(a, free, step), a, [k0] + free, k0, step)
  {
    var t := [k0] + free;
    assert t[0] == k0;
    assert forall j :: 0 < j < |t| ==> t[j] == free[j - 1];
    assert t[0 + 1..] == free;
  }

  lemma WordHead(w: Addr, a: Addr, free: seq<int>, k: int, k0: int, step: nat)
    requires WordOk(w, a, free, k, step) && k != k0
    ensures WordOk(w, a, [k0] + free, k, step)
  {
    var t := [k0] + free;
    if k in free {
      var i :| 0 <= i < |free| && free[i] == k;
      assert t[i + 1] == k;
    }
    forall j | 0 <= j < |t| && t[j] == k ensures w == First(a, t[j + 1..], step) {
      assert free[j - 1] == k;
      assert t[j + 1..] == free[j - 1 + 1..];
    }
  }

  // ---- a saved slab ----

  /** A saved slab: where it was, and its bytes. */
  datatype Rec = Rec(at: Addr, hdr: Header, words: seq<Addr>, data: seq<Bytes>)

  /** The record says `s`. */
  ghost predicate RecShows(r: Rec, s: Slab, step: nat) {
    && r.at > 0 && r.hdr.id == s.id && r.hdr.free == First(r.at, s.free, step) && Listed(s.free)
    && |s.data| == |r.data| == |r.words| == OBJ_NUM
    && forall k :: 0 <= k < OBJ_NUM ==> WordOk(r.words[k], r.at, s.free, k, step) && r.data[k] == s.data[k]
  }

  ghost predicate Saved(image: seq<Rec>, slabs: seq<Slab>, step: nat) {
    && |image| == |slabs|
    && forall i ::
         0 <= i < |image| ==> RecShows(image[i], slabs[i], step) && (image[i].hdr.next == NULL <==> i + 1 == |slabs|)
  }

  /** An address inside the slab, or the slab's own, moved along with it. */
  function Moved(w: Addr, old_: Addr, new_: Addr): Addr {
    if w == NULL then NULL else if w == old_ then new_ else w + (new_ - old_)
  }

  lemma MovedFirst(old_: Addr, new_: Addr, free: seq<int>, step: nat)
    requires old_ > 0 && forall j :: 0 <= j < |free| ==> 0 <= free[j]
    ensures Moved(First(old_, free, step), old_, new_) == First(new_, free, step)
  {
    if free != [] { assert free[0] * step >= 0; }
  }

  /** Moving the word behind an object keeps what it says. */
  lemma MovedWord(w: Addr, old_: Addr, new_: Addr, free: seq<int>, k: int, step: nat)
    requires old_ > 0 && Listed(free) && WordOk(w, old_, free, k, step)
    ensures WordOk(Moved(w, old_, new_), new_, free, k, step)
  {
    forall j | 0 <= j < |free| && free[j] == k ensures Moved(w, old_, new_) == First(new_, free[j + 1..], step) {
      MovedFirst(old_, new_, free[j + 1..], step);
    }
  }

  /** The first `k` objects at `a` are those of the record, moved. */
  ghost predicate Copied(m1: Store, m: Store, a: Addr, k: int, r: Rec, step: nat) {
    && m.hdr == m1.hdr
    && (forall o :: (forall j :: 0 <= j < OBJ_NUM ==> o != ObjAt(a, j, step)) ==> SameObj(m1, m, o))
    && forall j :: 0 <= j < k ==> CopiedAt(m, a, j, r, step)
  }

  predicate CopiedAt(m: Store, a: Addr, j: int, r: Rec, step: nat) {
    && 0 <= j < |r.words| && j < |r.data| && ObjAt(a, j, step) in m.words && ObjAt(a, j, step) in m.data
    && m.words[ObjAt(a, j, step)] == Moved(r.words[j], r.at, a) && m.data[ObjAt(a, j, step)] == r.data[j]
  }

  lemma CopiedMore(m1: Store, m2: Store, m: Store, a: Addr, k: int, r: Rec, step: nat)
    requires step > 0 && Copied(m1, m2, a, k, r, step) && 0 <= k < OBJ_NUM == |r.words| == |r.data|
    requires m == m2.(words := m2.words[ObjAt(a, k, step) := Moved(r.words[k], r.at, a)],
          data := m2.data[ObjAt(a, k, step) := r.data[k]])
    ensures Copied(m1, m, a, k + 1, r, step)
  {
    forall j | 0 <= j < k + 1 ensures CopiedAt(m, a, j, r, step) {
      ObjOne(a, j, k, step);
      if j < k { assert CopiedAt(m2, a, j, r, step); }
    }
    forall o | forall j :: 0 <= j < OBJ_NUM ==> o != ObjAt(a, j, step) ensures SameObj(m1, m, o) {
      assert SameObj(m1, m2, o);
    }
  }

  lemma CopiedDone(m0: Store, m1: Store, m: Store, a: Addr, r: Rec, s: Slab, h: Header, step: nat)
    requires a > 0 && step > 0 && RecShows(r, s, step) && Copied(m1, m, a, OBJ_NUM, r, step)
    requires m1 == m0.(hdr := m0.hdr[a := h]) && h.id == r.hdr.id
      && h.free == (if r.hdr.free != NULL then r.hdr.free + (a - r.at) else NULL)
    ensures OnlySlab(m0, m, a, step) && Shows(m, a, s, step)
  {
    MovedFirst(r.at, a, s.free, step);
    FirstInside(r.at, s.free, step);
    forall k | 0 <= k < OBJ_NUM ensures ObjOk(m, a, s, k, step) {
      assert CopiedAt(m, a, k, r, step);
      MovedWord(r.words[k], r.at, a, s.free, k, step);
    }
    forall o | forall j :: 0 <= j < OBJ_NUM ==> o != ObjAt(a, j, step) ensures SameObj(m0, m, o) {
      assert SameObj(m1, m, o);
    }
  }

  lemma FirstInside(a: Addr, free: seq<int>, step: nat)
    requires a > 0 && Listed(free)
    ensures First(a, free, step) != a
  {
    if free != [] { assert free[0] * step >= 0; }
  }

  lemma RecParts(r: Rec, s: Slab, step: nat)
    requires RecShows(r, s, step)
    ensures |r.words| == |r.data| == OBJ_NUM
  {
  }

  lemma FreshBeside(chain: seq<Addr>, step: nat, i: int)
    requires Spread(chain, step) && 0 <= i < |chain|
    ensures chain[i] > 0 && forall x :: x in chain[i + 1..] ==> Beside(chain[i], x, step) && chain[i] != x
    ensures Spread(chain[i + 1..], step)
  {
    hide Beside;
    forall x | x in chain[i + 1..] ensures Beside(chain[i], x, step) && chain[i] != x {
      var j :| 0 <= j < |chain[i + 1..]| && chain[i + 1..][j] == x;
      SpreadAt(chain, step, i, i + 1 + j);
    }
  }

  // ---- the list of slabs ----

  lemma SpreadAt(chain: seq<Addr>, step: nat, i: int, j: int)
    requires Spread(chain, step) && 0 <= i < |chain| && 0 <= j < |chain| && i != j
    ensures Beside(chain[i], chain[j], step) && chain[i] != chain[j]
  {
  }

  /** Writes to one slab's header and objects leave another slab as it is. */
  lemma OtherUntouched(m: Store, m': Store, a: Addr, b: Addr, step: nat)
    requires step > 0 && Beside(a, b, step) && a != b
    requires forall x :: x in m.hdr && x != a ==> x in m'.hdr && m'.hdr[x] == m.hdr[x]
    requires forall o :: (forall k :: 0 <= k < OBJ_NUM ==> o != ObjAt(a, k, step)) ==> SameObj(m, m', o)
    ensures Untouched(m, m', b, step)
  {
    forall k | 0 <= k < OBJ_NUM ensures SameObj(m, m', ObjAt(b, k, step)) {
      forall j | 0 <= j < OBJ_NUM ensures ObjAt(b, k, step) != ObjAt(a, j, step) {
        ObjsApart(a, b, j, k, step);
      }
    }
  }

  /** Only the slab at place `i` is written to. */
  ghost predicate OnlySlab(m: Store, m': Store, a: Addr, step: nat) {
    && (forall x :: x in m.hdr && x != a ==> x in m'.hdr && m'.hdr[x] == m.hdr[x])
    && (forall o :: (forall k :: 0 <= k < OBJ_NUM ==> o != ObjAt(a, k, step)) ==> SameObj(m, m', o))
  }

  lemma ShowsAfter(m: Store, m': Store, chain: seq<Addr>, slabs: seq<Slab>, step: nat, i: int, s: Slab)
    requires step > 0 && ShowsAll(m, chain, slabs, step) && Spread(chain, step) && 0 <= i < |chain|
    requires OnlySlab(m, m', chain[i], step) && Shows(m', chain[i], s, step)
    ensures ShowsAll(m', chain, slabs[i := s], step)
  {
    forall j | 0 <= j < |chain| ensures Shows(m', chain[j], slabs[i := s][j], step) {
      if j != i {
        SpreadAt(chain, step, i, j);
        OtherUntouched(m, m', chain[i], chain[j], step);
        ShowsKept(m, m', chain[j], slabs[j], step);
      }
    }
  }

  lemma ChainedAfter(m: Store, m': Store, chain: seq<Addr>, head: Addr, step: nat, i: int)
    requires Chained(m, chain, head) && Spread(chain, step) && 0 <= i < |chain| && OnlySlab(m, m', chain[i], step)
    requires chain[i] in m'.hdr && m'.hdr[chain[i]].next == m.hdr[chain[i]].next
    ensures Chained(m', chain, head)
  {
  }

  lemma CountTaken(slabs: seq<Slab>, i: int, s: Slab)
    requires 0 <= i < |slabs|
    ensures FreeCount(slabs[i := s]) == FreeCount(slabs) - |slabs[i].free| + |s.free|
  {
    if i == 0 {
      assert slabs[i := s][1..] == slabs[1..];
    } else {
      assert slabs[i := s][1..] == slabs[1..][i - 1 := s];
      CountTaken(slabs[1..], i - 1, s);
    }
  }

  /** A write to the header and to one word of a slab. */
  lemma OneObject(m: Store, m': Store, a: Addr, k: int, h: Header, w: Addr, step: nat)
    requires 0 <= k < OBJ_NUM && m' == m.(hdr := m.hdr[a := h], words := m.words[ObjAt(a, k, step) := w])
    ensures OnlySlab(m, m', a, step)
  {
  }

  class ObjPool {
    const objSize: nat
    const step: nat
    var m: Store
    var head: Addr
    var recent: Addr
    var slabNr: int
    var objNr: int
    var freeObjNr: int
    ghost var chain: seq<Addr>
    ghost var p: Pool

    /** Memory and list agree. */
    ghost predicate Core()
      reads this
    {
      && step == objSize + 8 && ShowsAll(m, chain, p.slabs, step) && Chained(m, chain, head) && Spread(chain, step)
      && Numbered(p.slabs) && -1 <= p.recent < |p.slabs| && recent == (if p.recent < 0 then NULL else chain[p.recent])
      && slabNr == |p.slabs| && objNr == OBJ_NUM * slabNr
    }

    /** So do the counters. */
    ghost predicate Valid()
      reads this
    {
      Core() && freeObjNr == FreeCount(p.slabs)
    }

    /** create_objpool: objects are rounded up to words. */
    constructor (size: nat)
      ensures Valid() && chain == [] && p == Pool([], -1) && objSize % 8 == 0 && size <= objSize < size + 8
        && step == objSize + 8
    {
      var n := if size % 8 != 0 then (size / 8 + 1) * 8 else size;
      objSize, step := n, n + 8;
      m := Store(map[], map[], map[]);
      head, recent, slabNr, objNr, freeObjNr := NULL, NULL, 0, 0, 0;
      chain, p := [], Pool([], -1);
    }

    /** The object is taken off its slab's list; its word leads to the slab. */
    method Take(slab: Addr, ghost i: int) returns (obj: Addr)
      requires Valid() && 0 <= i < |chain| && slab == chain[i] && p.slabs[i].free != []
      modifies `m, `freeObjNr, `p
      ensures Valid() && p == Taken(old(p), i) && obj == ObjAt(slab, old(p).slabs[i].free[0], step)
    {
      hide Chained, Spread, ShowsAll, Shows, FreeCount, OnlySlab, ObjAt;
      ShowsAt(m, chain, p.slabs, step, i);
      ShowsHead(m, slab, p.slabs[i], step);
      ghost var m0, k, s := m, p.slabs[i].free[0], p.slabs[i].(free := p.slabs[i].free[1..]);
      obj := m.hdr[slab].free;
      var h := m.hdr[slab].(free := m.words[obj]);
      m := m.(hdr := m.hdr[slab := h], words := m.words[obj := slab]);
      TakenShows(m0, m, slab, p.slabs[i], step);
      OneObject(m0, m, slab, k, h, slab, step);
      ShowsAfter(m0, m, chain, p.slabs, step, i, s);
      ChainedAfter(m0, m, chain, head, step, i);
      CountTaken(p.slabs, i, s);
      p := Taken(p, i);
      freeObjNr := freeObjNr - 1;
    }

    /** objpool_free: the word behind the object leads to its slab, whose list it joins at the head. */
    method Free(obj: Addr, ghost i: int, ghost k: int)
      requires Valid() && 0 <= i < |chain| && 0 <= k < OBJ_NUM && k !in p.slabs[i].free
        && obj == ObjAt(chain[i], k, step)
      modifies `m, `freeObjNr, `p
      ensures Valid() && p == Given(old(p), i, k)
    {
      hide Chained, Spread, ShowsAll, Shows, FreeCount, OnlySlab, ObjAt;
      ShowsAt(m, chain, p.slabs, step, i);
      ShowsBusy(m, chain[i], p.slabs[i], k, step);
      ghost var m0, s := m, p.slabs[i].(free := [k] + p.slabs[i].free);
      var slab := m.words[obj];
      m := m.(words := m.words[obj := m.hdr[slab].free]);
      var h := m.hdr[slab].(free := obj);
      m := m.(hdr := m.hdr[slab := h]);
      GivenShows(m0, m, slab, p.slabs[i], k, step);
      OneObject(m0, m, slab, k, h, m0.hdr[slab].free, step);
      ShowsAfter(m0, m, chain, p.slabs, step, i, s);
      ChainedAfter(m0, m, chain, head, step, i);
      CountTaken(p.slabs, i, s);
      p := Given(p, i, k);
      freeObjNr := freeObjNr + 1;
    }

    /** init_slab and malloc's part: a slab at `a` whose objects are all free, in address order. */
    method InitSlab(a: Addr, id: int, junk: seq<Bytes>)
      requires a > 0 && step > 0 && |junk| == OBJ_NUM
      modifies `m
      ensures OnlySlab(old(m), m, a, step) && Shows(m, a, Slab(id, AllFree(), junk), step)
      ensures a in m.hdr && m.hdr[a].next == head
    {
      hide OnlySlab, Shows;
      ghost var m0 := m;
      var k, start := 0, ObjAt(a, 0, step);
      while k < OBJ_NUM
        invariant 0 <= k <= OBJ_NUM && start == ObjAt(a, k, step) && Strung(m0, m, a, k, junk, step)
      {
        var next := start + step;
        assert next == ObjAt(a, k + 1, step);
        ghost var m1 := m;
        m := m.(words := m.words[start := next], data := m.data[start := junk[k]]);
        StrungMore(m0, m1, m, a, k, junk, step);
        k, start := k + 1, next;
      }
      ghost var m1 := m;
      assert start - step == ObjAt(a, OBJ_NUM - 1, step);
      m := m.(words := m.words[start - step := NULL], hdr := m.hdr[a := Header(ObjAt(a, 0, step), id, head)]);
      StrungDone(m0, m1, m, a, id, head, junk, step);
    }

    /** add_new_slab: malloc has given `a`, with `junk` in it. */
    method AddNewSlab(a: Addr, junk: seq<Bytes>)
      requires Core() && a > 0 && |junk| == OBJ_NUM && forall x :: x in chain ==> Beside(a, x, step) && a != x
      modifies `m, `head, `slabNr, `objNr, `freeObjNr, `chain, `p
      ensures Core() && p == Grown(old(p), junk) && chain == [a] + old(chain) && freeObjNr == old(freeObjNr) + OBJ_NUM
      ensures recent == old(recent) && slabNr == old(slabNr) + 1
        && FreeCount(p.slabs) == FreeCount(old(p).slabs) + OBJ_NUM
    {
      hide Chained, Spread, ShowsAll, Shows, OnlySlab, ObjAt, Beside;
      ghost var m0 := m;
      ShowsSizes(m, chain, p.slabs, step);
      InitSlab(a, slabNr, junk);
      ShowsFront(m0, m, chain, p.slabs, step, a, Slab(slabNr, AllFree(), junk));
      ChainedFront(m0, m, chain, head, step, a);
      SpreadFront(chain, step, a);
      head := a;
      assert Grown(p, junk).slabs[1..] == p.slabs;
      chain, p := [a] + chain, Grown(p, junk);
      slabNr := slabNr + 1;
      objNr := objNr + OBJ_NUM;
      freeObjNr := freeObjNr + OBJ_NUM;
    }

    /** The first slab in list order with a free object, or NULL. */
    method FindSlab() returns (slab: Addr, ghost i: int)
      requires Valid()
      ensures i == Serving(p.slabs, 0) && slab == if i < |p.slabs| then chain[i] else NULL
      ensures i < |p.slabs| ==> |chain| == |p.slabs| && slab != NULL
    {
      hide ShowsAll, Chained, Shows, Spread, ObjAt;
      ShowsSizes(m, chain, p.slabs, step);
      i := 0;
      slab := head;
      ChainedHead(m, chain, head);
      while slab != NULL
        invariant 0 <= i <= |chain| && slab == (if i < |chain| then chain[i] else NULL)
          && Serving(p.slabs, 0) == Serving(p.slabs, i)
        decreases |chain| - i
      {
        if i == |chain| { assert false; }
        ShowsAt(m, chain, p.slabs, step, i);
        ShowsHead(m, slab, p.slabs[i], step);
        if m.hdr[slab].free != NULL {
          return;
        }
        ChainedAt(m, chain, head, i);
        slab := m.hdr[slab].next;
        i := i + 1;
      }
      if i < |chain| { SpreadPos(chain, step, i); }
    }

    /** objpool_alloc; `a` and `junk` are what malloc would give. */
    method Alloc(a: Addr, junk: seq<Bytes>) returns (obj: Addr, ghost i: int, ghost k: int)
      requires Valid() && a > 0 && |junk| == OBJ_NUM && forall x :: x in chain ==> Beside(a, x, step) && a != x
      modifies this
      ensures Valid() && p == Allocated(old(p), junk) && (i, k) == Place(old(p)) && 0 <= i < |chain|
        && obj == ObjAt(chain[i], k, step)
      ensures 0 <= k < OBJ_NUM && k !in p.slabs[i].free && (forall x :: x in old(chain) ==> x in chain)
      ensures old(p).recent >= 0 && old(p).slabs[old(p).recent].free != [] ==>
          chain == old(chain) && chain[i] == old(recent) && recent == old(recent)
      ensures !(old(p).recent >= 0 && old(p).slabs[old(p).recent].free != []) && !NoneFree(old(p).slabs) ==>
          chain == old(chain) && recent == chain[i] && old(p).slabs[i].free != [] && NoneFree(old(p).slabs[..i])
      ensures NoneFree(old(p).slabs) ==> chain == [a] + old(chain) && i == 0 && recent == old(recent)
      ensures !NoneFree(old(p).slabs) ==> [k] + p.slabs[i].free == old(p).slabs[i].free
    {
      hide Chained, Spread, ShowsAll, Shows, ObjAt, Beside, FreeCount;
      ShowsSizes(m, chain, p.slabs, step);
      ghost var p0 := p;
      i := ServedBy(p);
      var found := recent;
      if p.recent >= 0 {
        ShowsAt(m, chain, p.slabs, step, p.recent);
        ShowsHead(m, recent, p.slabs[p.recent], step);
      }
      if !(recent != NULL && m.hdr[recent].free != NULL) {
        ghost var j;
        found, j := FindSlab();
        assert j == i;
        if found != NULL {
          recent := found;
          p := p.(recent := i);
        }
      }
      if found == NULL {
        AddNewSlab(a, junk);
        found, i := head, 0;
        FrontHead(m, chain, head, a);
      }
      ShowsSizes(m, chain, p.slabs, step);
      ShowsAt(m, chain, p.slabs, step, i);
      k := p.slabs[i].free[0];
      ghost var s := p.slabs[i];
      ListedHead(m, found, s, step);
      obj := Take(found, i);
    }

    /**
     * objpool_ser: the slabs in list order, each with the address it had. Some slab must have been found by a search
     * before.
     */
    method Save() returns (image: seq<Rec>, recentId: int, freeNr: int)
      requires Valid() && recent != NULL
      ensures Saved(image, p.slabs, step) && 0 <= p.recent < |p.slabs| && recentId == p.slabs[p.recent].id
        && freeNr == FreeCount(p.slabs)
    {
      hide ShowsAll, Chained, Shows, Spread, ObjAt, RecShows, FreeCount;
      ShowsSizes(m, chain, p.slabs, step);
      ChainedHead(m, chain, head);
      image := [];
      var slab := head;
      ghost var i := 0;
      while slab != NULL
        invariant 0 <= i <= |chain| && slab == (if i < |chain| then chain[i] else NULL) && |image| == i
        invariant forall j ::
            0 <= j < i ==> RecShows(image[j], p.slabs[j], step) && (image[j].hdr.next == NULL <==> j + 1 == |chain|)
        decreases |chain| - i
      {
        if i == |chain| { assert false; }
        ShowsAt(m, chain, p.slabs, step, i);
        ChainedAt(m, chain, head, i);
        if i + 1 < |chain| { SpreadPos(chain, step, i + 1); }
        var r := SaveSlab(slab, p.slabs[i]);
        image := image + [r];
        slab := m.hdr[slab].next;
        i := i + 1;
      }
      if i < |chain| { SpreadPos(chain, step, i); }
      assert i == |chain|;
      ShowsAt(m, chain, p.slabs, step, p.recent);
      ShowsHead(m, recent, p.slabs[p.recent], step);
      recentId := m.hdr[recent].id;
      freeNr := freeObjNr;
    }

    /** One slab, byte for byte. */
    method SaveSlab(a: Addr, ghost s: Slab) returns (r: Rec)
      requires Shows(m, a, s, step)
      ensures RecShows(r, s, step) && r.hdr == m.hdr[a] && r.at == a && a in m.hdr
    {
      hide ObjAt, WordOk;
      var words, data := [], [];
      for k := 0 to OBJ_NUM
        invariant |words| == |data| == k
        invariant forall j :: 0 <= j < k ==> WordOk(words[j], a, s.free, j, step) && data[j] == s.data[j]
      {
        assert ObjOk(m, a, s, k, step);
        words, data := words + [m.words[ObjAt(a, k, step)]], data + [m.data[ObjAt(a, k, step)]];
      }
      r := Rec(a, m.hdr[a], words, data);
    }

    /** A saved slab, read into the new one at `a`, with every address in it moved along. */
    method LoadSlab(a: Addr, r: Rec, nextSlab: Addr, ghost s: Slab)
      requires a > 0 && step > 0 && RecShows(r, s, step) && a in m.hdr && m.hdr[a].next == nextSlab
        && (r.hdr.next == NULL <==> nextSlab == NULL)
      modifies `m
      ensures OnlySlab(old(m), m, a, step) && Shows(m, a, s, step) && a in m.hdr && m.hdr[a].next == nextSlab
    {
      hide OnlySlab, Shows, ObjAt, RecShows;
      RecParts(r, s, step);
      ghost var m0 := m;
      var delta := a - r.at;
      var h := r.hdr;
      if h.next != NULL {
        h := h.(next := nextSlab);
      }
      if h.free != NULL {
        h := h.(free := h.free + delta);
      }
      m := m.(hdr := m.hdr[a := h]);
      ghost var m1 := m;
      for k := 0 to OBJ_NUM
        invariant Copied(m1, m, a, k, r, step)
      {
        ghost var m2 := m;
        var w := r.words[k];
        if w == NULL {
        } else if w == r.at {
          w := a;
        } else {
          w := w + delta;
        }
        m := m.(words := m.words[ObjAt(a, k, step) := w], data := m.data[ObjAt(a, k, step) := r.data[k]]);
        CopiedMore(m1, m2, m, a, k, r, step);
      }
      CopiedDone(m0, m1, m, a, r, s, h, step);
    }

    /** One more slab at the head of the list, read from its record. */
    method LoadOne(a: Addr, r: Rec, nextSlab: Addr, junk: seq<Bytes>, ghost s: Slab)
      requires Core() && a > 0 && |junk| == OBJ_NUM && forall x :: x in chain ==> Beside(a, x, step) && a != x
      requires RecShows(r, s, step) && s.id == |p.slabs| && nextSlab == head && p.recent == -1
      requires r.hdr.next == NULL <==> nextSlab == NULL
      modifies `m, `head, `slabNr, `objNr, `freeObjNr, `chain, `p
      ensures Core() && chain == [a] + old(chain) && p == Pool([s] + old(p).slabs, -1)
      ensures head == a && recent == old(recent)
    {
      hide ShowsAll, Chained, Shows, Spread, ObjAt, RecShows, FreeCount, OnlySlab, Beside;
      ghost var l := p.slabs;
      ShowsSizes(m, chain, l, step);
      ChainedHead(m, chain, head);
      AddNewSlab(a, junk);
      FrontHead(m, chain, head, a);
      ghost var m0 := m;
      ChainedAt(m, chain, head, 0);
      ShowsAt(m, chain, p.slabs, step, 0);
      LoadSlab(a, r, nextSlab, s);
      ShowsAfter(m0, m, chain, p.slabs, step, 0, s);
      ChainedAfter(m0, m, chain, head, step, 0);
      assert p.slabs[0 := s] == [s] + l;
      p := p.(slabs := [s] + l);
    }

    /** objpool_deser_high, into a new pool: the slabs are made last first, at the addresses malloc gives. */
    method Load(image: seq<Rec>, recentId: int, freeNr: int, newAt: seq<Addr>, junk: seq<Bytes>, ghost q: Pool)
      requires Valid() && chain == [] && p.recent == -1 && |junk| == OBJ_NUM
      requires Saved(image, q.slabs, step) && Numbered(q.slabs) && 0 <= q.recent < |q.slabs|
        && recentId == q.slabs[q.recent].id && freeNr == FreeCount(q.slabs)
      requires |newAt| == |image| && Spread(newAt, step)
      modifies this
      ensures Valid() && chain == newAt && p == q
    {
      hide ShowsAll, Chained, Shows, ObjAt, RecShows, FreeCount, OnlySlab, Beside;
      ShowsSizes(m, chain, p.slabs, step);
      var n := |image|;
      var nextSlab := NULL;
      ChainedHead(m, chain, head);
      for cnt := n downto 0
        invariant Core() && chain == newAt[cnt..] && p == Pool(q.slabs[cnt..], -1) && nextSlab == head && recent == NULL
      {
        var a := newAt[cnt];
        FreshBeside(newAt, step, cnt);
        ChainedHead(m, chain, head);
        assert nextSlab == NULL <==> cnt + 1 == n by { if cnt + 1 < n { SpreadPos(newAt, step, cnt + 1); } }
        LoadOne(a, image[cnt], nextSlab, junk, q.slabs[cnt]);
        assert newAt[cnt..] == [a] + newAt[cnt + 1..] && q.slabs[cnt..] == [q.slabs[cnt]] + q.slabs[cnt + 1..];
        nextSlab := a;
      }
      assert newAt[0..] == newAt && q.slabs[0..] == q.slabs;
      FindRecent(recentId, q.recent);
      p := q;
      freeObjNr := freeNr;
    }

    /** The slab with the given id served last. */
    method FindRecent(id: int, ghost i: int)
      requires Core() && 0 <= i < |p.slabs| == |chain| && id == p.slabs[i].id && recent == NULL
      modifies `recent
      ensures recent == chain[i]
    {
      hide ShowsAll, Chained, Shows, Spread, ObjAt;
      var slab := head;
      ghost var j := 0;
      ChainedHead(m, chain, head);
      while slab != NULL
        invariant 0 <= j <= i && slab == chain[j] && recent == NULL
        decreases |chain| - j
      {
        ShowsAt(m, chain, p.slabs, step, j);
        ShowsHead(m, slab, p.slabs[j], step);
        if m.hdr[slab].id == id {
          recent := slab;
          break;
        }
        ChainedAt(m, chain, head, j);
        slab := m.hdr[slab].next;
        j := j + 1;
        SpreadPos(chain, step, j);
      }
      if recent == NULL { SpreadPos(chain, step, j); }
    }
  }

  lemma ShowsAt(m: Store, chain: seq<Addr>, slabs: seq<Slab>, step: nat, i: int)
    requires ShowsAll(m, chain, slabs, step) && 0 <= i < |chain|
    ensures |slabs| == |chain| && Shows(m, chain[i], slabs[i], step)
  {
  }

  lemma ShowsHead(m: Store, a: Addr, s: Slab, step: nat)
    requires Shows(m, a, s, step)
    ensures a > 0 && a in m.hdr && m.hdr[a].id == s.id && (m.hdr[a].free == NULL <==> s.free == [])
    ensures s.free != [] ==>
        0 <= s.free[0] < OBJ_NUM && m.hdr[a].free == ObjAt(a, s.free[0], step) && m.hdr[a].free in m.words
  {
    if s.free != [] {
      assert ObjOk(m, a, s, s.free[0], step);
      assert s.free[0] * step >= 0;
    }
  }

  lemma ShowsBusy(m: Store, a: Addr, s: Slab, k: int, step: nat)
    requires Shows(m, a, s, step) && 0 <= k < OBJ_NUM && k !in s.free
    ensures a in m.hdr && ObjAt(a, k, step) in m.words && m.words[ObjAt(a, k, step)] == a
  {
    assert ObjOk(m, a, s, k, step);
  }

  lemma ListedHead(m: Store, a: Addr, s: Slab, step: nat)
    requires Shows(m, a, s, step) && s.free != []
    ensures 0 <= s.free[0] < OBJ_NUM && s.free[0] !in s.free[1..]
  {
  }

  lemma ShowsSizes(m: Store, chain: seq<Addr>, slabs: seq<Slab>, step: nat)
    requires ShowsAll(m, chain, slabs, step)
    ensures |slabs| == |chain|
  {
  }

  lemma ChainedHead(m: Store, chain: seq<Addr>, head: Addr)
    requires Chained(m, chain, head)
    ensures head == if chain == [] then NULL else chain[0]
  {
  }

  lemma FrontHead(m: Store, chain: seq<Addr>, head: Addr, a: Addr)
    requires Chained(m, chain, head) && |chain| > 0 && chain[0] == a
    ensures head == a
  {
  }

  lemma ChainedAt(m: Store, chain: seq<Addr>, head: Addr, i: int)
    requires Chained(m, chain, head) && 0 <= i < |chain|
    ensures chain[i] in m.hdr && m.hdr[chain[i]].next == if i + 1 < |chain| then chain[i + 1] else NULL
  {
  }

  lemma SpreadPos(chain: seq<Addr>, step: nat, i: int)
    requires Spread(chain, step) && 0 <= i < |chain|
    ensures chain[i] > 0
  {
  }

  /** The first `k` objects at `a` are strung together. */
  ghost predicate Strung(m0: Store, m: Store, a: Addr, k: int, junk: seq<Bytes>, step: nat) {
    && m.hdr == m0.hdr
    && (forall o :: (forall j :: 0 <= j < OBJ_NUM ==> o != ObjAt(a, j, step)) ==> SameObj(m0, m, o))
    && forall j :: 0 <= j < k ==> StrungAt(m, a, j, junk, step)
  }

  predicate StrungAt(m: Store, a: Addr, j: int, junk: seq<Bytes>, step: nat) {
    && 0 <= j < |junk| && ObjAt(a, j, step) in m.words && ObjAt(a, j, step) in m.data
    && m.words[ObjAt(a, j, step)] == ObjAt(a, j + 1, step) && m.data[ObjAt(a, j, step)] == junk[j]
  }

  lemma StrungMore(m0: Store, m1: Store, m: Store, a: Addr, k: int, junk: seq<Bytes>, step: nat)
    requires step > 0 && Strung(m0, m1, a, k, junk, step) && 0 <= k < OBJ_NUM == |junk|
    requires m == m1.(words := m1.words[ObjAt(a, k, step) := ObjAt(a, k + 1, step)],
          data := m1.data[ObjAt(a, k, step) := junk[k]])
    ensures Strung(m0, m, a, k + 1, junk, step)
  {
    forall j | 0 <= j < k + 1 ensures StrungAt(m, a, j, junk, step) {
      ObjOne(a, j, k, step);
      if j < k { assert StrungAt(m1, a, j, junk, step); }
    }
    forall o | forall j :: 0 <= j < OBJ_NUM ==> o != ObjAt(a, j, step) ensures SameObj(m0, m, o) {
      assert SameObj(m0, m1, o);
    }
  }

  lemma StrungDone(m0: Store, m1: Store, m: Store, a: Addr, id: int, next: Addr, junk: seq<Bytes>, step: nat)
    requires a > 0 && step > 0 && Strung(m0, m1, a, OBJ_NUM, junk, step) && |junk| == OBJ_NUM
    requires m == m1.(words := m1.words[ObjAt(a, OBJ_NUM - 1, step) := NULL],
          hdr := m1.hdr[a := Header(ObjAt(a, 0, step), id, next)])
    ensures OnlySlab(m0, m, a, step) && Shows(m, a, Slab(id, AllFree(), junk), step)
  {
    var s := Slab(id, AllFree(), junk);
    forall k | 0 <= k < OBJ_NUM ensures ObjOk(m, a, s, k, step) {
      assert StrungAt(m1, a, k, junk, step);
      ObjOne(a, k, OBJ_NUM - 1, step);
      StringWord(a, k, step);
    }
    forall o | forall j :: 0 <= j < OBJ_NUM ==> o != ObjAt(a, j, step) ensures SameObj(m0, m, o) {
      assert SameObj(m0, m1, o);
    }
  }

  lemma StringWord(a: Addr, k: int, step: nat)
    requires 0 <= k < OBJ_NUM
    ensures WordOk(if k == OBJ_NUM - 1 then NULL else ObjAt(a, k + 1, step), a, AllFree(), k, step)
  {
    var f := AllFree();
    assert f[k] == k;
    if k < OBJ_NUM - 1 { assert f[k + 1..][0] == k + 1; }
  }

  lemma ShowsFront(m: Store, m': Store, chain: seq<Addr>, slabs: seq<Slab>, step: nat, a: Addr, s: Slab)
    requires step > 0 && ShowsAll(m, chain, slabs, step) && OnlySlab(m, m', a, step) && Shows(m', a, s, step)
    requires forall x :: x in chain ==> Beside(a, x, step) && a != x
    ensures ShowsAll(m', [a] + chain, [s] + slabs, step)
  {
    var c, l := [a] + chain, [s] + slabs;
    forall j | 0 <= j < |c| ensures Shows(m', c[j], l[j], step) {
      if j > 0 {
        assert c[j] == chain[j - 1] && l[j] == slabs[j - 1];
        OtherUntouched(m, m', a, chain[j - 1], step);
        ShowsKept(m, m', chain[j - 1], slabs[j - 1], step);
      }
    }
  }

  lemma ChainedFront(m: Store, m': Store, chain: seq<Addr>, head: Addr, step: nat, a: Addr)
    requires Chained(m, chain, head) && OnlySlab(m, m', a, step) && a in m'.hdr && m'.hdr[a].next == head && a !in chain
    ensures Chained(m', [a] + chain, a)
  {
    var c := [a] + chain;
    forall i | 0 <= i < |c| ensures c[i] in m'.hdr && m'.hdr[c[i]].next == if i + 1 < |c| then c[i + 1] else NULL {
      if i > 0 {
        assert c[i] == chain[i - 1] && chain[i - 1] in chain;
        ChainedAt(m, chain, head, i - 1);
        if i + 1 < |c| { assert c[i + 1] == chain[i]; }
      } else if chain != [] {
        assert c[1] == chain[0];
      }
    }
    ChainedOf(m', c, a);
  }

  lemma ChainedOf(m: Store, chain: seq<Addr>, head: Addr)
    requires head == if chain == [] then NULL else chain[0]
    requires forall i ::
        0 <= i < |chain| ==> chain[i] in m.hdr && m.hdr[chain[i]].next == if i + 1 < |chain| then chain[i + 1] else NULL
    ensures Chained(m, chain, head)
  {
  }

  lemma SpreadFront(chain: seq<Addr>, step: nat, a: Addr)
    requires Spread(chain, step) && a > 0 && forall x :: x in chain ==> Beside(a, x, step) && a != x
    ensures Spread([a] + chain, step)
  {
  }

  /**
   * A slab has been found by a search exactly when one was before, or a slab with a free object was there to be found.
   */
  lemma RecentSet(p: Pool, junk: seq<Bytes>)
    requires -1 <= p.recent < |p.slabs|
    ensures Allocated(p, junk).recent >= 0 <==> p.recent >= 0 || exists i :: 0 <= i < |p.slabs| && p.slabs[i].free != []
  {
    var i := ServedBy(p);
    if i < |p.slabs| {
      assert p.slabs[i].free != [];
    }
  }

  /** One allocation: there is a slab, but none that a search has found, and saving would follow a null pointer. */
  method NothingRecent() returns (x: ObjPool)
    ensures x.Valid() && x.slabNr == 1 && x.recent == NULL
  {
    hide ShowsAll, Chained, Shows, Spread, ObjAt, FreeCount;
    x := new ObjPool(16);
    ghost var p0 := x.p;
    var junk: seq<Bytes> := seq(OBJ_NUM, _ => []);
    assert Serving(p0.slabs, 0) == 0;
    var o, i, k := x.Alloc(8, junk);
    assert |x.p.slabs| == 1;
  }

  // ---- a pool and its copy ----

  /**
   * A pool that was saved and loaded at other addresses says what it said: slabs, free lists in order, content,
   * counters.
   */
  method SaveAndLoad(x: ObjPool, y: ObjPool, newAt: seq<Addr>, junk: seq<Bytes>)
    requires x.Valid() && x.recent != NULL && y.Valid() && y.chain == [] && y.p.recent == -1 && y.step == x.step
      && x != y
    requires |newAt| == |x.chain| && Spread(newAt, x.step) && |junk| == OBJ_NUM
    modifies y
    ensures y.Valid() && y.p == x.p && y.chain == newAt && y.freeObjNr == x.freeObjNr && y.objNr == x.objNr
      && y.slabNr == x.slabNr
  {
    hide ShowsAll, Chained, Shows, Spread, ObjAt, RecShows, FreeCount;
    ShowsSizes(x.m, x.chain, x.p.slabs, x.step);
    var image, id, nr := x.Save();
    y.Load(image, id, nr, newAt, junk, x.p);
  }

  /** A pool and its copy serve an allocation from the same place, and say the same afterwards. */
  method TwinAlloc(x: ObjPool, y: ObjPool, a: Addr, b: Addr, junk: seq<Bytes>) returns (ghost i: int, ghost k: int,
      o: Addr, u: Addr)
    requires x.Valid() && y.Valid() && x != y && x.p == y.p && |junk| == OBJ_NUM
    requires a > 0 && forall z :: z in x.chain ==> Beside(a, z, x.step) && a != z
    requires b > 0 && forall z :: z in y.chain ==> Beside(b, z, y.step) && b != z
    modifies x, y
    ensures x.Valid() && y.Valid() && x.p == y.p && 0 <= i < |x.chain| && i < |y.chain|
    ensures o == ObjAt(x.chain[i], k, x.step) && u == ObjAt(y.chain[i], k, y.step)
  {
    hide ShowsAll, Chained, Shows, Spread, ObjAt, FreeCount, Beside, Allocated, Place;
    ghost var j, l;
    o, i, k := x.Alloc(a, junk);
    u, j, l := y.Alloc(b, junk);
  }

  /** So do they when the same object is given back. */
  method TwinFree(x: ObjPool, y: ObjPool, o: Addr, u: Addr, ghost i: int, ghost k: int)
    requires x.Valid() && y.Valid() && x != y && x.p == y.p && 0 <= i < |x.chain| && i < |y.chain| && 0 <= k < OBJ_NUM
    requires i < |x.p.slabs| && k !in x.p.slabs[i].free && o == ObjAt(x.chain[i], k, x.step)
      && u == ObjAt(y.chain[i], k, y.step)
    modifies x, y
    ensures x.Valid() && y.Valid() && x.p == y.p
  {
    hide ShowsAll, Chained, Shows, Spread, ObjAt, FreeCount;
    x.Free(o, i, k);
    y.Free(u, i, k);
  }
}
