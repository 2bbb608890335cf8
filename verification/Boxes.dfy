/** Leitner boxes: six queues of items in memory, mirrored by counts and a linked chain in the metadata. */
module LeitnerBoxes {
  const BOX_LEVEL_CNT := 6
  const VS_CNT_BASE := 4
  const NO_MORE_VIS := 0x4e4f4d4f
  const NEW_FIRST_INODE_LINENR := 0x4e46494c
  const TWO_32 := 0x1_0000_0000

  /** The limits of the boxes; that of the last one, 0, is not used. */
  function LimitOf(level: int): nat {
    if level == 0 then VS_CNT_BASE else if level == 1 || level == 2 then 3 * VS_CNT_BASE
    else if level == 3 then 5 * VS_CNT_BASE else if level == 4 then 8 * VS_CNT_BASE else 0
  }

  /**
   * A box in memory: the line number of its first item, the numbers of its items within and beyond the limit, its
   * queue.
   */
  datatype Box = Box(first: int, cnt: int, busy: int, queue: seq<int>)

  /** What the metadata keep of a box. */
  datatype BoxMeta = BoxMeta(first: int, cnt: int, busy: int)

  predicate Full(level: int, b: Box) {
    level != 5 && !(b.cnt < LimitOf(level))
  }

  /** Counts go with the queue: items beyond the limit are busy, and the last box has no limit. */
  predicate Counted(level: int, b: Box) {
    && b.cnt + b.busy == |b.queue|
    && b.cnt == if level == 5 || |b.queue| < LimitOf(level) then |b.queue| else LimitOf(level)
  }

  /** The chain through `next` from `first` spells the queue. */
  ghost predicate Chained(q: seq<int>, first: int, next: seq<int>) {
    && (q != [] ==> first == q[0])
    && (forall k :: 0 <= k < |q| ==> 0 <= q[k] < |next| && next[q[k]] == After(q, k))
  }

  function After(q: seq<int>, k: int): int
    requires 0 <= k < |q|
  {
    if k + 1 < |q| then q[k + 1] else NO_MORE_VIS
  }

  /** Items in no order: each below `loaded` is in exactly the queue of its level, once. */
  ghost predicate Sorted(boxes: seq<Box>, level: seq<int>, loaded: int)
    requires |boxes| == BOX_LEVEL_CNT && 0 <= loaded <= |level|
  {
    && (forall b, k :: 0 <= b < BOX_LEVEL_CNT && 0 <= k < |boxes[b].queue| ==>
          0 <= boxes[b].queue[k] < loaded && level[boxes[b].queue[k]] == b)
    && (forall b, j, k ::
           0 <= b < BOX_LEVEL_CNT && 0 <= j < k < |boxes[b].queue| ==> boxes[b].queue[j] != boxes[b].queue[k])
    && (forall i :: 0 <= i < loaded ==> 0 <= level[i] < BOX_LEVEL_CNT && i in boxes[level[i]].queue)
  }

  /** How many items there are in all. */
  function Items(boxes: seq<Box>): nat
    requires |boxes| == BOX_LEVEL_CNT
  {
    |boxes[0].queue| + |boxes[1].queue| + |boxes[2].queue| + |boxes[3].queue| + |boxes[4].queue| + |boxes[5].queue|
  }

  function Queues(boxes: seq<Box>): seq<seq<int>> {
    seq(|boxes|, b requires 0 <= b < |boxes| => boxes[b].queue)
  }

  /** The head of the queue `a` goes to the end of the queue `b`. */
  function Moved(q: seq<seq<int>>, a: int, b: int): seq<seq<int>>
    requires 0 <= a < |q| && 0 <= b < |q| && q[a] != []
  {
    var p := q[a := q[a][1..]];
    p[b := p[b] + [q[a][0]]]
  }

  function Min(x: int, y: int): int {
    if x < y then x else y
  }

  function Max(x: int, y: int): int {
    if x < y then y else x
  }

  /** An int taken for an unsigned one. */
  function Unsigned(x: int): int {
    x % TWO_32
  }

  /** How many items a load asks for: an argument, even a negative one, against what fits and what is left. */
  function ToLoad(perLoad: int, arg: int, given: bool, room: int, left: int): int {
    var n := if given then Min(perLoad, arg) else perLoad;
    var n1 := if Unsigned(n) < room then Unsigned(n) else room;
    if n1 < left then n1 else left
  }

  /**
   * The request is met as far as there is room and items are left, unless it is negative: then all that fits is loaded.
   */
  lemma LoadAmount(perLoad: int, arg: int, given: bool, room: int, left: int)
    requires -0x8000_0000 <= arg < 0x8000_0000 && 0 <= perLoad < 0x8000_0000 && 0 <= room < 0x8000_0000 && 0 <= left
    ensures ToLoad(perLoad, arg, given, room, left)
         == if !given then Min(perLoad, Min(room, left))
            else if arg >= 0 then Min(Min(perLoad, arg), Min(room, left))
            else Min(room, left)
  {
    assert given && arg < 0 ==> Unsigned(Min(perLoad, arg)) == arg + TWO_32;
  }

  /** No more is loaded than was asked for, exactly when the request is not negative or nothing can be loaded. */
  lemma RequestRespected(perLoad: int, arg: int, room: int, left: int)
    requires -0x8000_0000 <= arg < 0x8000_0000 && 0 <= perLoad < 0x8000_0000 && 0 <= room < 0x8000_0000 && 0 <= left
    ensures ToLoad(perLoad, arg, true, room, left) <= Max(arg, 0) <==> arg >= 0 || Min(room, left) == 0
  {
    LoadAmount(perLoad, arg, true, room, left);
  }

  lemma ToLoadBounds(perLoad: int, arg: int, given: bool, room: int, left: int)
    requires 0 <= room && 0 <= left
    ensures 0 <= ToLoad(perLoad, arg, given, room, left) <= room && ToLoad(perLoad, arg, given, room, left) <= left
  {
  }

  // ---- taking the head off a queue, and adding a tail ----

  lemma {:induction false} ChainTail(q: seq<int>, first: int, next: seq<int>)
    requires Chained(q, first, next) && q != []
    ensures Chained(q[1..], if |q| > 1 then q[1] else first, next)
  {
    var r := q[1..];
    forall k | 0 <= k < |r| ensures 0 <= r[k] < |next| && next[r[k]] == After(r, k) {
      assert r[k] == q[k + 1];
    }
  }

  /** Other chains do not pass through the links that adding a tail writes. */
  lemma {:induction false} ChainKept(q: seq<int>, first: int, next: seq<int>, next': seq<int>)
    requires Chained(q, first, next) && |next'| == |next| && forall k :: 0 <= k < |q| ==> next'[q[k]] == next[q[k]]
    ensures Chained(q, first, next')
  {
  }

  lemma {:induction false} ChainAppend(q: seq<int>, first: int, next: seq<int>, next': seq<int>, i: int)
    requires Chained(q, first, next) && |next'| == |next| && 0 <= i < |next| && i !in q
    requires forall j, k :: 0 <= j < k < |q| ==> q[j] != q[k]
    requires next' == if q == [] then next[i := NO_MORE_VIS] else next[q[|q| - 1] := i][i := NO_MORE_VIS]
    ensures Chained(q + [i], if q == [] then i else first, next')
  {
    var r := q + [i];
    forall k | 0 <= k < |r| ensures 0 <= r[k] < |next'| && next'[r[k]] == After(r, k) {
      if k < |q| {
        assert r[k] == q[k] && next[q[k]] == After(q, k);
      }
    }
  }

  /** The items sorted, but for `i`, which is in no queue. */
  ghost predicate SortedBut(boxes: seq<Box>, level: seq<int>, loaded: int, i: int)
    requires |boxes| == BOX_LEVEL_CNT && 0 <= loaded <= |level|
  {
    && 0 <= i < loaded
    && (forall b, k :: 0 <= b < BOX_LEVEL_CNT && 0 <= k < |boxes[b].queue| ==>
           0 <= boxes[b].queue[k] < loaded && boxes[b].queue[k] != i && level[boxes[b].queue[k]] == b)
    && (forall b, j, k ::
           0 <= b < BOX_LEVEL_CNT && 0 <= j < k < |boxes[b].queue| ==> boxes[b].queue[j] != boxes[b].queue[k])
    && (forall j :: 0 <= j < loaded && j != i ==> 0 <= level[j] < BOX_LEVEL_CNT && j in boxes[level[j]].queue)
  }

  ghost predicate AllChained(boxes: seq<Box>, next: seq<int>) {
    forall b :: 0 <= b < |boxes| ==> Chained(boxes[b].queue, boxes[b].first, next)
  }

  lemma {:induction false} SortedAt(boxes: seq<Box>, level: seq<int>, loaded: int, b: int, k: int)
    requires |boxes| == BOX_LEVEL_CNT && 0 <= loaded <= |level| && Sorted(boxes, level, loaded)
      && 0 <= b < BOX_LEVEL_CNT && 0 <= k < |boxes[b].queue|
    ensures 0 <= boxes[b].queue[k] < loaded && level[boxes[b].queue[k]] == b
    ensures k > 0 ==> boxes[b].queue[0] != boxes[b].queue[k]
  {
  }

  lemma {:induction false} SortedIn(boxes: seq<Box>, level: seq<int>, loaded: int, i: int)
    requires |boxes| == BOX_LEVEL_CNT && 0 <= loaded <= |level| && Sorted(boxes, level, loaded) && 0 <= i < loaded
    ensures 0 <= level[i] < BOX_LEVEL_CNT && i in boxes[level[i]].queue
  {
  }

  lemma {:induction false} SortedOnce(boxes: seq<Box>, level: seq<int>, loaded: int, b: int, j: int, k: int)
    requires |boxes| == BOX_LEVEL_CNT && 0 <= loaded <= |level| && Sorted(boxes, level, loaded)
    requires 0 <= b < BOX_LEVEL_CNT && 0 <= j < k < |boxes[b].queue|
    ensures boxes[b].queue[j] != boxes[b].queue[k]
  {
  }

  /** After the head `i` of the box `a` has been taken. */
  lemma {:induction false} TakenSorted(boxes: seq<Box>, boxes': seq<Box>, level: seq<int>, loaded: int, a: int, i: int)
    requires |boxes| == BOX_LEVEL_CNT && |boxes'| == BOX_LEVEL_CNT && 0 <= loaded <= |level| && 0 <= a < BOX_LEVEL_CNT
    requires Sorted(boxes, level, loaded) && boxes[a].queue != [] && i == boxes[a].queue[0]
      && boxes'[a].queue == boxes[a].queue[1..]
    requires forall b :: 0 <= b < BOX_LEVEL_CNT && b != a ==> boxes'[b] == boxes[b]
    ensures SortedBut(boxes', level, loaded, i)
  {
    hide Sorted;
    SortedAt(boxes, level, loaded, a, 0);
    forall j | 0 <= j < loaded && j != i ensures 0 <= level[j] < BOX_LEVEL_CNT && j in boxes'[level[j]].queue {
      SortedIn(boxes, level, loaded, j);
      var q := boxes[level[j]].queue;
      var k :| 0 <= k < |q| && q[k] == j;
      if level[j] == a { assert boxes'[a].queue[k - 1] == j; }
    }
    forall b, k | 0 <= b < BOX_LEVEL_CNT && 0 <= k < |boxes'[b].queue|
      ensures boxes'[b].queue[k] != i && 0 <= boxes'[b].queue[k] < loaded && level[boxes'[b].queue[k]] == b
    {
      SortedAt(boxes, level, loaded, b, if b == a then k + 1 else k);
    }
    forall b, j, k | 0 <= b < BOX_LEVEL_CNT && 0 <= j < k < |boxes'[b].queue|
      ensures boxes'[b].queue[j] != boxes'[b].queue[k]
    {
      var d := if b == a then 1 else 0;
      SortedOnce(boxes, level, loaded, b, j + d, k + d);
    }
  }

  lemma {:induction false} Taken(boxes: seq<Box>, boxes': seq<Box>, next: seq<int>, level: seq<int>, loaded: int,
      a: int, i: int)
    requires |boxes| == BOX_LEVEL_CNT && |boxes'| == BOX_LEVEL_CNT && 0 <= loaded <= |level| && 0 <= a < BOX_LEVEL_CNT
    requires Sorted(boxes, level, loaded) && Items(boxes) == loaded && AllChained(boxes, next)
    requires boxes[a].queue != [] && i == boxes[a].queue[0] && boxes'[a].queue == boxes[a].queue[1..]
    requires boxes'[a].queue != [] ==> boxes'[a].first == boxes'[a].queue[0]
    requires forall b :: 0 <= b < BOX_LEVEL_CNT && b != a ==> boxes'[b] == boxes[b]
    ensures SortedBut(boxes', level, loaded, i) && Items(boxes') + 1 == loaded && AllChained(boxes', next)
  {
    TakenSorted(boxes, boxes', level, loaded, a, i);
    hide Sorted, SortedBut;
    assert Items(boxes') + 1 == loaded;
    hide Items;
    forall b | 0 <= b < BOX_LEVEL_CNT ensures Chained(boxes'[b].queue, boxes'[b].first, next) {
      assert Chained(boxes[b].queue, boxes[b].first, next);
      if b == a { ChainTail(boxes[a].queue, boxes[a].first, next); }
    }
  }

  lemma {:induction false} SortedButAt(boxes: seq<Box>, level: seq<int>, loaded: int, i: int, b: int, k: int)
    requires |boxes| == BOX_LEVEL_CNT && 0 <= loaded <= |level| && SortedBut(boxes, level, loaded, i)
      && 0 <= b < BOX_LEVEL_CNT && 0 <= k < |boxes[b].queue|
    ensures 0 <= boxes[b].queue[k] < loaded && boxes[b].queue[k] != i && level[boxes[b].queue[k]] == b
  {
  }

  /** After `i` has been added to the end of the box `n`. */
  lemma {:induction false} PutSorted(boxes: seq<Box>, boxes': seq<Box>, level: seq<int>, level': seq<int>, loaded: int,
      n: int, i: int)
    requires |boxes| == BOX_LEVEL_CNT && |boxes'| == BOX_LEVEL_CNT && 0 <= loaded <= |level| && 0 <= n < BOX_LEVEL_CNT
    requires SortedBut(boxes, level, loaded, i) && level' == level[i := n] && boxes'[n].queue == boxes[n].queue + [i]
    requires forall b :: 0 <= b < BOX_LEVEL_CNT && b != n ==> boxes'[b] == boxes[b]
    ensures Sorted(boxes', level', loaded)
  {
    forall j | 0 <= j < loaded ensures 0 <= level'[j] < BOX_LEVEL_CNT && j in boxes'[level'[j]].queue {
      if j == i { assert boxes'[n].queue[|boxes[n].queue|] == i; }
    }
    forall b, k | 0 <= b < BOX_LEVEL_CNT && 0 <= k < |boxes'[b].queue|
      ensures 0 <= boxes'[b].queue[k] < loaded && level'[boxes'[b].queue[k]] == b
    {
      if k < |boxes[b].queue| { SortedButAt(boxes, level, loaded, i, b, k); }
    }
    forall b, j, k | 0 <= b < BOX_LEVEL_CNT && 0 <= j < k < |boxes'[b].queue|
      ensures boxes'[b].queue[j] != boxes'[b].queue[k]
    {
      SortedButAt(boxes, level, loaded, i, b, j);
      if k < |boxes[b].queue| { assert boxes[b].queue[j] != boxes[b].queue[k]; }
    }
  }

  lemma {:induction false} PutChained(boxes: seq<Box>, boxes': seq<Box>, next: seq<int>, next': seq<int>,
      level: seq<int>, loaded: int, n: int, i: int, b: int)
    requires |boxes| == BOX_LEVEL_CNT && |boxes'| == BOX_LEVEL_CNT && 0 <= loaded <= |level| == |next| == |next'|
      && 0 <= n < BOX_LEVEL_CNT && 0 <= b < BOX_LEVEL_CNT
    requires SortedBut(boxes, level, loaded, i) && Chained(boxes[b].queue, boxes[b].first, next)
    requires Adds(boxes[n], boxes'[n], next, next', i) && (b != n ==> boxes'[b] == boxes[b])
    ensures Chained(boxes'[b].queue, boxes'[b].first, next')
  {
    var q := boxes[n].queue;
    if b == n {
      assert i !in q;
      ChainAppend(q, boxes[n].first, next, next', i);
    } else {
      if q != [] { SortedButAt(boxes, level, loaded, i, n, |q| - 1); }
      forall k | 0 <= k < |boxes[b].queue| ensures next'[boxes[b].queue[k]] == next[boxes[b].queue[k]] {
        SortedButAt(boxes, level, loaded, i, b, k);
      }
      ChainKept(boxes[b].queue, boxes[b].first, next, next');
    }
  }

  /** A box and the chain get `i` as the last item. */
  ghost predicate Adds(b: Box, b': Box, next: seq<int>, next': seq<int>, i: int) {
    && b'.queue == b.queue + [i] && b'.first == (if b.queue == [] then i else b.first) && 0 <= i < |next|
    && if b.queue == [] then next' == next[i := NO_MORE_VIS]
       else 0 <= b.queue[|b.queue| - 1] < |next| && next' == next[b.queue[|b.queue| - 1] := i][i := NO_MORE_VIS]
  }

  lemma {:induction false} Put(boxes: seq<Box>, boxes': seq<Box>, next: seq<int>, next': seq<int>, level: seq<int>,
      level': seq<int>, loaded: int, n: int, i: int)
    requires |boxes| == BOX_LEVEL_CNT && |boxes'| == BOX_LEVEL_CNT && 0 <= loaded <= |level| == |next| == |next'|
      && 0 <= n < BOX_LEVEL_CNT
    requires SortedBut(boxes, level, loaded, i) && Items(boxes) + 1 == loaded && AllChained(boxes, next)
      && level' == level[i := n]
    requires Adds(boxes[n], boxes'[n], next, next', i)
    requires forall b :: 0 <= b < BOX_LEVEL_CNT && b != n ==> boxes'[b] == boxes[b]
    ensures Sorted(boxes', level', loaded) && Items(boxes') == loaded && AllChained(boxes', next')
  {
    assert boxes'[n].queue == boxes[n].queue + [i];
    hide SortedBut, Sorted, Chained;
    assert Items(boxes') == loaded;
    hide Items;
    PutSorted(boxes, boxes', level, level', loaded, n, i);
    forall b | 0 <= b < BOX_LEVEL_CNT ensures Chained(boxes'[b].queue, boxes'[b].first, next') {
      PutChained(boxes, boxes', next, next', level, loaded, n, i, b);
    }
  }

  /** The next item to load is in no queue. */
  lemma {:induction false} NextItem(boxes: seq<Box>, level: seq<int>, loaded: int)
    requires |boxes| == BOX_LEVEL_CNT && 0 <= loaded < |level| && Sorted(boxes, level, loaded)
    ensures SortedBut(boxes, level, loaded + 1, loaded)
  {
    forall b, j, k | 0 <= b < BOX_LEVEL_CNT && 0 <= j < k < |boxes[b].queue|
      ensures boxes[b].queue[j] != boxes[b].queue[k]
    {
    }
  }

  /** The last item of a queue is one of the items. */
  lemma {:induction false} LastItem(boxes: seq<Box>, level: seq<int>, loaded: int, i: int, b: int)
    requires |boxes| == BOX_LEVEL_CNT && 0 <= loaded <= |level| && SortedBut(boxes, level, loaded, i)
      && 0 <= b < BOX_LEVEL_CNT
    ensures 0 <= i < loaded
    ensures boxes[b].queue != [] ==> 0 <= boxes[b].queue[|boxes[b].queue| - 1] < loaded
  {
  }

  lemma {:induction false} AddsQueue(b: Box, b': Box, next: seq<int>, next': seq<int>, i: int)
    requires Adds(b, b', next, next', i)
    ensures b'.queue == b.queue + [i]
  {
  }

  lemma {:induction false} MovedQueues(boxes0: seq<Box>, boxes1: seq<Box>, boxes2: seq<Box>, a: int, n: int, i: int)
    requires |boxes0| == |boxes1| == |boxes2| == BOX_LEVEL_CNT && 0 <= a < BOX_LEVEL_CNT && 0 <= n < BOX_LEVEL_CNT
    requires boxes0[a].queue != [] && i == boxes0[a].queue[0] && boxes1[a].queue == boxes0[a].queue[1..]
      && boxes2[n].queue == boxes1[n].queue + [i]
    requires forall b :: 0 <= b < BOX_LEVEL_CNT && b != a ==> boxes1[b] == boxes0[b]
    requires forall b :: 0 <= b < BOX_LEVEL_CNT && b != n ==> boxes2[b] == boxes1[b]
    ensures Queues(boxes2) == Moved(Queues(boxes0), a, n)
  {
  }

  /** The items from `bp` on, in order. */
  function NewItems(bp: int, n: nat): (r: seq<int>)
    ensures |r| == n && forall k :: 0 <= k < n ==> r[k] == bp + k
  {
    seq(n, k => bp + k)
  }

  lemma {:induction false} LoadedQueues(boxes0: seq<Box>, boxes1: seq<Box>, bp: int, n: nat)
    requires |boxes0| == |boxes1| == BOX_LEVEL_CNT && boxes1[0].queue == boxes0[0].queue + NewItems(bp, n)
    requires forall b :: 0 < b < BOX_LEVEL_CNT ==> boxes1[b] == boxes0[b]
    ensures Queues(boxes1) == Queues(boxes0)[0 := boxes0[0].queue + NewItems(bp, n)]
  {
  }

  /** One step along the chain of a box. */
  lemma {:induction false} ChainAt(boxes: seq<Box>, next: seq<int>, level: seq<int>, loaded: int, b: int, k: int)
    requires |boxes| == BOX_LEVEL_CNT && 0 <= loaded <= |level| && Sorted(boxes, level, loaded)
      && AllChained(boxes, next) && 0 <= b < BOX_LEVEL_CNT && 0 <= k < |boxes[b].queue|
    ensures var q := boxes[b].queue;
            0 <= q[k] < loaded && level[q[k]] == b && 0 <= q[k] < |next| && (k == 0 ==> boxes[b].first == q[k])
            && (k > 0 ==> 0 <= q[k - 1] < |next| && q[k] == next[q[k - 1]])
  {
    SortedAt(boxes, level, loaded, b, k);
    assert Chained(boxes[b].queue, boxes[b].first, next);
    if k > 0 { assert next[boxes[b].queue[k - 1]] == After(boxes[b].queue, k - 1); }
  }

  /** A loaded item is in exactly the box of its level, at one place; one that is not loaded is in none. */
  ghost predicate EachOnce(boxes: seq<Box>, level: seq<int>, loaded: int)
    requires |boxes| == BOX_LEVEL_CNT && 0 <= loaded <= |level|
  {
    && (forall i, b :: 0 <= b < BOX_LEVEL_CNT ==> (i in boxes[b].queue <==> 0 <= i < loaded && level[i] == b))
    && (forall b, j, k :: 0 <= b < BOX_LEVEL_CNT && 0 <= j < k < |boxes[b].queue| ==>
          boxes[b].queue[j] != boxes[b].queue[k])
  }

  lemma {:induction false} ExactlyOnce(boxes: seq<Box>, level: seq<int>, loaded: int)
    requires |boxes| == BOX_LEVEL_CNT && 0 <= loaded <= |level| && Sorted(boxes, level, loaded)
    ensures EachOnce(boxes, level, loaded)
  {
    forall i, b | 0 <= b < BOX_LEVEL_CNT && i in boxes[b].queue ensures 0 <= i < loaded && level[i] == b {
      var k :| 0 <= k < |boxes[b].queue| && boxes[b].queue[k] == i;
      SortedAt(boxes, level, loaded, b, k);
    }
  }

  lemma {:induction false} ItsBox(boxes: seq<Box>, level: seq<int>, loaded: int, i: int)
    requires |boxes| == BOX_LEVEL_CNT && 0 <= loaded <= |level| && Sorted(boxes, level, loaded) && 0 <= i < loaded
    ensures 0 <= level[i] < BOX_LEVEL_CNT && i in boxes[level[i]].queue
  {
  }

  /** Levels rewritten with what they were. */
  lemma {:induction false} SortedAgain(boxes: seq<Box>, level: seq<int>, level': seq<int>, loaded: int)
    requires |boxes| == BOX_LEVEL_CNT && 0 <= loaded <= |level| == |level'| && Sorted(boxes, level, loaded)
      && forall j :: 0 <= j < loaded ==> level'[j] == level[j]
    ensures Sorted(boxes, level', loaded)
  {
  }

  // ---------- the record of moves ----------

  /** Where an item that is loaded comes from. */
  const FILE := -1

  /** An item went from one box, or from the file, to the end of another. */
  datatype Move = Move(item: int, from: int, to: int)

  /** The items that came to the box `b`, in order. */
  function Came(log: seq<Move>, b: int): seq<int> {
    if log == [] then [] else
      var m := log[|log| - 1];
      Came(log[..|log| - 1], b) + if m.to == b then [m.item] else []
  }

  /** The items that left the box `b`, in order. */
  function Left(log: seq<Move>, b: int): seq<int> {
    if log == [] then [] else
      var m := log[|log| - 1];
      Left(log[..|log| - 1], b) + if m.from == b then [m.item] else []
  }

  /** What each queue was, with what came behind it, is what left it and then what it has become. */
  ghost predicate Told(q0: seq<seq<int>>, q: seq<seq<int>>, log: seq<Move>) {
    && |q0| == |q| == BOX_LEVEL_CNT
    && forall b :: 0 <= b < BOX_LEVEL_CNT ==> q0[b] + Came(log, b) == Left(log, b) + q[b]
  }

  const NoItems: seq<seq<int>> := seq(BOX_LEVEL_CNT, _ => [])

  lemma {:induction false} LogMore(log: seq<Move>, m: Move, b: int)
    ensures Came(log + [m], b) == Came(log, b) + if m.to == b then [m.item] else []
    ensures Left(log + [m], b) == Left(log, b) + if m.from == b then [m.item] else []
  {
    assert (log + [m])[..|log|] == log;
  }

  lemma {:induction false} LogJoined(log: seq<Move>, more: seq<Move>, b: int)
    ensures Came(log + more, b) == Came(log, b) + Came(more, b) && Left(log + more, b) == Left(log, b) + Left(more, b)
    decreases |more|
  {
    if more == [] {
      assert log + more == log;
    } else {
      var n, m := more[..|more| - 1], more[|more| - 1];
      assert log + more == (log + n) + [m] && more == n + [m];
      LogJoined(log, n, b);
      LogMore(log + n, m, b);
      LogMore(n, m, b);
    }
  }

  /**
   * A record that is true of the past and a longer one that is true now: what was added is true of the time between.
   */
  lemma {:induction false} ToldSince(q0: seq<seq<int>>, q: seq<seq<int>>, q': seq<seq<int>>, log: seq<Move>,
      more: seq<Move>)
    requires Told(q0, q, log) && Told(q0, q', log + more)
    ensures Told(q, q', more)
  {
    forall b | 0 <= b < BOX_LEVEL_CNT ensures q[b] + Came(more, b) == Left(more, b) + q'[b] {
      LogJoined(log, more, b);
      var l := Left(log, b);
      assert l + (q[b] + Came(more, b)) == q0[b] + Came(log, b) + Came(more, b);
      assert l + (Left(more, b) + q'[b]) == l + Left(more, b) + q'[b];
      SameTail(l, q[b] + Came(more, b), Left(more, b) + q'[b]);
    }
  }

  lemma SameTail(l: seq<int>, x: seq<int>, y: seq<int>)
    requires l + x == l + y
    ensures x == y
  {
    assert x == (l + x)[|l|..] && y == (l + y)[|l|..];
  }

  lemma {:induction false} ToldMove(q0: seq<seq<int>>, q: seq<seq<int>>, q': seq<seq<int>>, log: seq<Move>, a: int,
      n: int)
    requires Told(q0, q, log) && 0 <= a < BOX_LEVEL_CNT && 0 <= n < BOX_LEVEL_CNT && q[a] != [] && q' == Moved(q, a, n)
    ensures Told(q0, q', log + [Move(q[a][0], a, n)])
  {
    var i, m := q[a][0], Move(q[a][0], a, n);
    forall b | 0 <= b < BOX_LEVEL_CNT ensures q0[b] + Came(log + [m], b) == Left(log + [m], b) + q'[b] {
      LogMore(log, m, b);
      var more := if b == n then [i] else [];
      var gone := if b == a then [i] else [];
      assert q[b] + more == gone + q'[b];
      Regroup(q0[b], Came(log, b), more, Left(log, b), q[b], gone, q'[b]);
    }
  }

  lemma Regroup(x: seq<int>, c: seq<int>, more: seq<int>, l: seq<int>, y: seq<int>, gone: seq<int>, z: seq<int>)
    requires x + c == l + y && y + more == gone + z
    ensures x + (c + more) == (l + gone) + z
  {
    assert x + (c + more) == (x + c) + more;
    assert (l + y) + more == l + (y + more);
    assert l + (gone + z) == (l + gone) + z;
  }

  lemma {:induction false} NothingTold(boxes: seq<Box>)
    requires |boxes| == BOX_LEVEL_CNT && forall b :: 0 <= b < BOX_LEVEL_CNT ==> boxes[b].queue == []
    ensures Told(NoItems, Queues(boxes), []) && Brought([], 0)
  {
  }

  lemma {:induction false} ToldLoad(q0: seq<seq<int>>, q: seq<seq<int>>, q': seq<seq<int>>, log: seq<Move>, i: int)
    requires Told(q0, q, log) && q' == q[0 := q[0] + [i]]
    ensures Told(q0, q', log + [Move(i, FILE, 0)])
  {
    var m := Move(i, FILE, 0);
    forall b | 0 <= b < BOX_LEVEL_CNT ensures q0[b] + Came(log + [m], b) == Left(log + [m], b) + q'[b] {
      LogMore(log, m, b);
      assert q0[b] + Came(log + [m], b) == (q0[b] + Came(log, b)) + if b == 0 then [i] else [];
    }
  }

  /** The items that were loaded are the first ones of the file, in order. */
  ghost predicate Brought(log: seq<Move>, loaded: nat) {
    Left(log, FILE) == NewItems(0, loaded)
  }

  lemma {:induction false} BroughtMore(log: seq<Move>, loaded: nat, m: Move)
    requires Brought(log, loaded) && (m.from == FILE ==> m.item == loaded)
    ensures Brought(log + [m], if m.from == FILE then loaded + 1 else loaded)
  {
    LogMore(log, m, FILE);
    assert NewItems(0, loaded + 1) == NewItems(0, loaded) + [loaded];
  }

  lemma {:induction false} QueueAt(boxes: seq<Box>, a: int)
    requires 0 <= a < |boxes|
    ensures Queues(boxes)[a] == boxes[a].queue
  {
  }

  lemma {:induction false} FirstQueue(boxes: seq<Box>, boxes': seq<Box>, i: int)
    requires |boxes| == |boxes'| == BOX_LEVEL_CNT && boxes'[0].queue == boxes[0].queue + [i]
    requires forall b :: 0 < b < BOX_LEVEL_CNT ==> boxes'[b] == boxes[b]
    ensures |Queues(boxes)| == BOX_LEVEL_CNT && Queues(boxes') == Queues(boxes)[0 := Queues(boxes)[0] + [i]]
  {
  }

  lemma {:induction false} EmptyBox(level: int, b: Box)
    requires Counted(level, b) && 0 <= level < 5
    ensures b.cnt == 0 <==> b.queue == []
  {
  }

  class Boxes {
    const total: nat
    const perLoad: int
    var boxes: seq<Box>
    var meta: seq<BoxMeta>
    var next: seq<int>
    var level: seq<int>
    var loaded: nat
    /** All moves since the boxes were empty. */
    ghost var log: seq<Move>

    /** The metadata tell the same as the boxes `bs` and the levels `ls`, and so does the record of moves. */
    ghost predicate Agree(bs: seq<Box>, ls: seq<int>)
      reads this`meta, this`next, this`loaded, this`log
    {
      && |bs| == BOX_LEVEL_CNT && |meta| == BOX_LEVEL_CNT && |next| == total && |ls| == total && loaded <= total
      && total <= NO_MORE_VIS
      && (forall b :: 0 <= b < BOX_LEVEL_CNT ==>
             Counted(b, bs[b]) && meta[b] == BoxMeta(bs[b].first, bs[b].cnt, bs[b].busy))
      && AllChained(bs, next) && Sorted(bs, ls, loaded) && Items(bs) == loaded
      && 0 <= perLoad < 0x8000_0000
      && Told(NoItems, Queues(bs), log) && Brought(log, loaded)
    }

    /** Memory and metadata tell the same. */
    ghost predicate Valid()
      reads this
    {
      Agree(boxes, level)
    }

    constructor (total: nat, perLoad: int)
      requires total <= NO_MORE_VIS && 0 <= perLoad < 0x8000_0000
      ensures Valid() && loaded == 0 && this.total == total && this.perLoad == perLoad
        && Queues(boxes) == seq(BOX_LEVEL_CNT, _ => [])
    {
      this.total, this.perLoad := total, perLoad;
      boxes := seq(BOX_LEVEL_CNT, _ => Box(NEW_FIRST_INODE_LINENR, 0, 0, []));
      meta := seq(BOX_LEVEL_CNT, _ => BoxMeta(NEW_FIRST_INODE_LINENR, 0, 0));
      next := seq(total, _ => 0);
      level := seq(total, _ => 0);
      loaded := 0;
      log := [];
      new;
      hide Told, Brought, Queues;
      NothingTold(boxes);
    }

    /** Whether a box has no room left; the last one always has. */
    method LboxIsFull(lblevel: int) returns (r: bool)
      requires Valid() && 0 <= lblevel < BOX_LEVEL_CNT
      ensures r <==> lblevel != 5 && |boxes[lblevel].queue| >= LimitOf(lblevel)
    {
      if lblevel == 5 {
        return false;
      }
      r := !(boxes[lblevel].cnt < LimitOf(lblevel));
    }

    /** Takes the head out of its box. What the metadata name as the first item of an emptied box is arbitrary. */
    method TakeHead(old_: int) returns (i: int)
      requires Valid() && 0 <= old_ < BOX_LEVEL_CNT && boxes[old_].queue != []
      modifies `boxes, `meta
      ensures i == old(boxes)[old_].queue[0] && |boxes| == |meta| == BOX_LEVEL_CNT
      ensures forall b :: 0 <= b < BOX_LEVEL_CNT && b != old_ ==> boxes[b] == old(boxes)[b] && meta[b] == old(meta)[b]
      ensures boxes[old_].queue == old(boxes)[old_].queue[1..] && Counted(old_, boxes[old_])
      ensures meta[old_] == BoxMeta(boxes[old_].first, boxes[old_].cnt, boxes[old_].busy)
      ensures boxes[old_].queue != [] ==> boxes[old_].first == boxes[old_].queue[0]
    {
      hide Sorted, Chained, Items, AllChained;
      var b, m := boxes[old_], meta[old_];
      i := b.queue[0];
      var first: int := *;
      if |b.queue| > 1 {
        first := b.queue[1];
      }
      b, m := b.(first := first), m.(first := first);
      b := b.(queue := b.queue[1..]);
      m := m.(cnt := m.cnt - 1);
      b := b.(cnt := m.cnt);
      if b.busy != 0 {
        m := m.(cnt := m.cnt + 1);
        b := b.(cnt := m.cnt);
        m := m.(busy := m.busy - 1);
        b := b.(busy := m.busy);
      }
      boxes, meta := boxes[old_ := b], meta[old_ := m];
    }

    /** Adds an item to the end of a box, beyond its limit if need be. */
    method PutTail(newlevel: int, i: int)
      requires |boxes| == |meta| == BOX_LEVEL_CNT && 0 <= newlevel < BOX_LEVEL_CNT && 0 <= i < |next|
        && |level| == |next|
      requires var b := boxes[newlevel];
              Counted(newlevel, b) && meta[newlevel] == BoxMeta(b.first, b.cnt, b.busy)
              && (b.queue != [] ==> 0 <= b.queue[|b.queue| - 1] < |next|)
      modifies `boxes, `meta, `next, `level
      ensures |boxes| == |meta| == BOX_LEVEL_CNT && |next| == |old(next)| && level == old(level)[i := newlevel]
      ensures forall b ::
          0 <= b < BOX_LEVEL_CNT && b != newlevel ==> boxes[b] == old(boxes)[b] && meta[b] == old(meta)[b]
      ensures Adds(old(boxes)[newlevel], boxes[newlevel], old(next), next, i)
      ensures var b := boxes[newlevel]; Counted(newlevel, b) && meta[newlevel] == BoxMeta(b.first, b.cnt, b.busy)
    {
      var b, m := boxes[newlevel], meta[newlevel];
      if b.cnt == 0 {
        b, m := b.(first := i), m.(first := i);
      } else {
        next := next[b.queue[|b.queue| - 1] := i];
      }
      next := next[i := NO_MORE_VIS];
      b := b.(queue := b.queue + [i]);
      if Full(newlevel, b) {
        m := m.(busy := m.busy + 1);
        b := b.(busy := m.busy);
      } else {
        m := m.(cnt := m.cnt + 1);
        b := b.(cnt := m.cnt);
      }
      boxes, meta := boxes[newlevel := b], meta[newlevel := m];
      level := level[i := newlevel];
    }

    /** Moves the head of a box to the end of another, or of the same one. */
    method MoveToLbox(newlevel: int, oldlevel: int)
      requires Valid() && 0 <= newlevel < BOX_LEVEL_CNT && 0 <= oldlevel < BOX_LEVEL_CNT && boxes[oldlevel].queue != []
      modifies `boxes, `meta, `next, `level, `log
      ensures Valid() && Queues(boxes) == Moved(old(Queues(boxes)), oldlevel, newlevel)
      ensures log == old(log) + [Move(old(boxes)[oldlevel].queue[0], oldlevel, newlevel)]
    {
      hide Sorted, SortedBut, Chained, Items, AllChained, Adds, Told, Brought, Queues, Moved;
      ghost var boxes0, next0, level0, q := boxes, next, level, Queues(boxes);
      QueueAt(boxes, oldlevel);
      var i := TakeHead(oldlevel);
      ghost var boxes1 := boxes;
      Taken(boxes0, boxes1, next, level, loaded, oldlevel, i);
      LastItem(boxes, level, loaded, i, newlevel);
      PutTail(newlevel, i);
      Put(boxes1, boxes, next0, next, level0, level, loaded, newlevel, i);
      AddsQueue(boxes1[newlevel], boxes[newlevel], next0, next, i);
      MovedQueues(boxes0, boxes1, boxes, oldlevel, newlevel, i);
      ToldMove(NoItems, q, Queues(boxes), log, oldlevel, newlevel);
      BroughtMore(log, loaded, Move(i, oldlevel, newlevel));
      log := log + [Move(i, oldlevel, newlevel)];
    }

    /** How many items can be loaded: no more than box 0 has room for, no more than there are. */
    ghost function Fits(): int
      requires |boxes| == BOX_LEVEL_CNT
      reads this
    {
      Min(Max(LimitOf(0) - |boxes[0].queue|, 0), total - loaded)
    }

    /** cmd_load: new items go to the end of box 0. */
    method Load(given: bool, arg: int) returns (n: int)
      requires Valid() && -0x8000_0000 <= arg < 0x8000_0000
      modifies this
      ensures Valid()
      ensures n == if given && arg < 0 then old(Fits())
          else Min(if given then Min(perLoad, arg) else perLoad, old(Fits()))
      ensures given ==> (n <= Max(arg, 0) <==> arg >= 0 || old(Fits()) == 0)
      ensures old(log) <= log && |log| == |old(log)| + n && forall k :: |old(log)| <= k < |log| ==>
          log[k] == Move(old(loaded) + (k - |old(log)|), FILE, 0)
      ensures n == 0 ==> boxes == old(boxes)
      ensures loaded == old(loaded) + n
        && Queues(boxes) == old(Queues(boxes))[0 := old(boxes)[0].queue + NewItems(old(loaded), n)]
    {
      hide Sorted, Chained, Items, AllChained, Queues, Told, Brought;
      assert Counted(0, boxes[0]);
      n := ToLoad(perLoad, arg, given, LimitOf(0) - boxes[0].cnt, total - loaded);
      ToLoadBounds(perLoad, arg, given, LimitOf(0) - boxes[0].cnt, total - loaded);
      LoadAmount(perLoad, arg, given, LimitOf(0) - boxes[0].cnt, total - loaded);
      RequestRespected(perLoad, arg, LimitOf(0) - boxes[0].cnt, total - loaded);
      hide ToLoad;
      var i, bp := 0, loaded;
      ghost var boxes0 := boxes;
      while i < n
        invariant 0 <= i <= n && Valid() && loaded == bp + i && bp + n <= total && boxes[0].cnt + (n - i) <= LimitOf(0)
        invariant old(log) <= log && |log| == |old(log)| + i && forall k :: |old(log)| <= k < |log| ==>
            log[k] == Move(bp + (k - |old(log)|), FILE, 0)
        invariant boxes[0].queue == boxes0[0].queue + NewItems(bp, i) && (i == 0 ==> boxes == boxes0)
        invariant forall b :: 0 < b < BOX_LEVEL_CNT ==> boxes[b] == boxes0[b]
      {
        AddLast(bp + i);
        assert boxes0[0].queue + NewItems(bp, i) + [bp + i] == boxes0[0].queue + NewItems(bp, i + 1);
        i := i + 1;
      }
      LoadedQueues(boxes0, boxes, bp, n);
    }

    /** One new item. */
    method AddLast(i: int)
      requires Valid() && i == loaded < total && boxes[0].cnt < LimitOf(0)
      modifies this
      ensures Valid() && loaded == old(loaded) + 1 && boxes[0].cnt == old(boxes)[0].cnt + 1
      ensures log == old(log) + [Move(i, FILE, 0)]
      ensures boxes[0].queue == old(boxes)[0].queue + [i]
        && forall b :: 0 < b < BOX_LEVEL_CNT ==> boxes[b] == old(boxes)[b]
    {
      hide Sorted, SortedBut, Chained, Told, Brought, Queues;
      ghost var boxes1, next0, level0, q := boxes, next, level, Queues(boxes);
      NextItem(boxes, level, loaded);
      LastItem(boxes, level, loaded + 1, i, 0);
      assert Items(boxes) == loaded;
      hide Items;
      var b, m := boxes[0], meta[0];
      if b.cnt == 0 {
        b, m := b.(first := i), m.(first := i);
      } else {
        next := next[b.queue[|b.queue| - 1] := i];
      }
      next := next[i := NO_MORE_VIS];
      b := b.(queue := b.queue + [i]);
      level := level[i := 0];
      m := m.(cnt := m.cnt + 1);
      b := b.(cnt := m.cnt);
      boxes, meta := boxes[0 := b], meta[0 := m];
      loaded := loaded + 1;
      Put(boxes1, boxes, next0, next, level0, level, loaded, 0, i);
      FirstQueue(boxes1, boxes, i);
      ToldLoad(NoItems, q, Queues(boxes), log, i);
      BroughtMore(log, i, Move(i, FILE, 0));
      log := log + [Move(i, FILE, 0)];
    }

    /**
     * ltsys_meta_init on an existing file: whatever is in memory, the boxes and levels that were there before are read
     * back from the metadata alone.
     */
    method Reload(ghost was: seq<Box>, ghost wasLevel: seq<int>)
      requires Agree(was, wasLevel)
      modifies `boxes, `level
      ensures Valid() && boxes == was
      ensures forall i :: 0 <= i < loaded ==> level[i] == wasLevel[i]
    {
      hide Sorted, Chained, Items, AllChained, Told, Brought;
      level := seq(total, _ => 0);
      var fresh_: seq<Box> := [];
      for i := 0 to BOX_LEVEL_CNT
        invariant |fresh_| == i && fresh_ == was[..i] && |level| == total
        invariant forall b, k :: 0 <= b < i && 0 <= k < total && k in was[b].queue ==> level[k] == b
      {
        var m := meta[i];
        ghost var level0 := level;
        var q := ReadBox(i, was, wasLevel);
        fresh_ := fresh_ + [Box(m.first, m.cnt, m.busy, q)];
        forall b, k | 0 <= b < i && 0 <= k < total && k in was[b].queue ensures level[k] == b {
          ExactlyOnce(was, wasLevel, loaded);
          assert wasLevel[k] == b && k !in q && level0[k] == b;
        }
      }
      boxes := fresh_;
      assert was[..BOX_LEVEL_CNT] == was;
      forall i | 0 <= i < loaded ensures level[i] == wasLevel[i] { ItsBox(was, wasLevel, loaded, i); }
      SortedAgain(was, wasLevel, level, loaded);
    }

    /** The queue of one box, read along its chain. */
    method ReadBox(i: int, ghost was: seq<Box>, ghost wasLevel: seq<int>) returns (q: seq<int>)
      requires Agree(was, wasLevel) && 0 <= i < BOX_LEVEL_CNT && |level| == total
      modifies `level
      ensures q == was[i].queue && |level| == total
      ensures forall k :: 0 <= k < total ==> level[k] == if k in q then i else old(level)[k]
    {
      hide Sorted, Chained, Items, AllChained, Told, Brought;
      var m := meta[i];
      var j, curi := 0, 0;
      q := [];
      while j < m.cnt + m.busy
        invariant 0 <= j <= |was[i].queue| && q == was[i].queue[..j] && |level| == total
        invariant j > 0 ==> curi == was[i].queue[j - 1]
        invariant forall k :: 0 <= k < total ==> level[k] == if k in q then i else old(level)[k]
      {
        ChainAt(was, next, wasLevel, loaded, i, j);
        curi := if j == 0 then m.first else next[curi];
        q := q + [curi];
        level := level[curi := i];
        j := j + 1;
      }
    }

    /**
     * Any run of loads, moves and reloads. Whatever moves there were: each queue, with what came to it behind, is what
     * left it and then what it has become; every loaded item is in exactly the box of its level, at one place.
     */
    method AnyRun(steps: nat)
      requires Valid()
      modifies this
      ensures Valid() && loaded >= old(loaded) && old(log) <= log
      ensures Told(old(Queues(boxes)), Queues(boxes), log[|old(log)|..])
      ensures EachOnce(boxes, level, loaded)
    {
      hide Sorted, Chained, Items, AllChained, Counted, Queues, Moved, ToLoad, Told, Brought, EachOnce;
      var left := steps;
      while left != 0
        invariant Valid() && loaded >= old(loaded) && old(log) <= log
        decreases left
      {
        var a: int, b: int, what: int := *, *, *;
        if what == 0 {
          if -0x8000_0000 <= a < 0x8000_0000 {
            var n := Load(b == 0, a);
          }
        } else if what == 1 {
          ghost var was, wasLevel := boxes, level;
          boxes, level := *, *;
          Reload(was, wasLevel);
        } else if 0 <= a < BOX_LEVEL_CNT && 0 <= b < BOX_LEVEL_CNT && boxes[a].queue != [] {
          MoveToLbox(b, a);
        }
        left := left - 1;
      }
      Since(old(boxes), old(log));
      ExactlyOnce(boxes, level, loaded);
    }

    /** What the record says, and that every loaded item is in exactly one box. */
    lemma Record()
      requires Valid()
      ensures |boxes| == BOX_LEVEL_CNT && loaded <= |level| && EachOnce(boxes, level, loaded)
      ensures Told(NoItems, Queues(boxes), log)
    {
      ExactlyOnce(boxes, level, loaded);
    }

    lemma PerLoad()
      requires Valid()
      ensures 0 <= perLoad && loaded <= total
    {
    }

    /** What the counts say of the queues. */
    lemma Sizes()
      requires Valid()
      ensures |boxes| == |Queues(boxes)| == BOX_LEVEL_CNT
      ensures forall b :: 0 <= b < 5 ==>
          boxes[b].queue == Queues(boxes)[b] && boxes[b].cnt == Min(|Queues(boxes)[b]|, LimitOf(b))
      ensures boxes[5].queue == Queues(boxes)[5] && boxes[5].cnt == |Queues(boxes)[5]|
      ensures var q := Queues(boxes); |q[0]| + |q[1]| + |q[2]| + |q[3]| + |q[4]| + |q[5]| == loaded
    {
      assert forall b :: 0 <= b < 6 ==> Counted(b, boxes[b]);
    }

    /** What the record says of the time since the boxes were `was` and the record `before`. */
    lemma Since(was: seq<Box>, before: seq<Move>)
      requires Valid() && before <= log && Told(NoItems, Queues(was), before)
      ensures Told(Queues(was), Queues(boxes), log[|before|..])
    {
      hide Told, Queues;
      assert log == before + log[|before|..];
      ToldSince(NoItems, Queues(was), Queues(boxes), before, log[|before|..]);
    }
  }
}
