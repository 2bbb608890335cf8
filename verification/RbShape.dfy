/** Red-black trees as values: contexts, in-order contents, balance, and what the rotations do to them. */
module RbShape {
  type Ptr = nat

  const NULL: Ptr := 0

  datatype Side = L | R

  function Opp(s: Side): Side {
    if s == L then R else L
  }

  datatype Tree = Leaf | Node(ptr: Ptr, black: bool, left: Tree, right: Tree)

  /** A tree with a hole: the path from the hole up, with the subtrees beside it. */
  datatype Ctx = Top | Up(side: Side, ptr: Ptr, black: bool, other: Tree, up: Ctx)

  function Root(t: Tree): Ptr {
    if t.Leaf? then NULL else t.ptr
  }

  /** A node whose subtree on side `s` is `near`. */
  function Build(s: Side, p: Ptr, black: bool, near: Tree, far: Tree): Tree {
    if s == L then Node(p, black, near, far) else Node(p, black, far, near)
  }

  function Near(t: Tree, s: Side): Tree
    requires t.Node?
  {
    if s == L then t.left else t.right
  }

  function Far(t: Tree, s: Side): Tree
    requires t.Node?
  {
    Near(t, Opp(s))
  }

  lemma {:induction false} Rebuild(t: Tree, s: Side)
    requires t.Node?
    ensures t == Build(s, t.ptr, t.black, Near(t, s), Far(t, s))
  {
  }

  function Plug(x: Ctx, t: Tree): Tree {
    match x
    case Top => t
    case Up(s, p, c, o, up) => Plug(up, Build(s, p, c, t, o))
  }

  /** `x` inside `y`. */
  function Within(x: Ctx, y: Ctx): Ctx {
    match x
    case Top => y
    case Up(s, p, c, o, up) => Up(s, p, c, o, Within(up, y))
  }

  lemma {:induction false} PlugWithin(x: Ctx, y: Ctx, t: Tree)
    ensures Plug(Within(x, y), t) == Plug(y, Plug(x, t))
    decreases x
  {
    match x
    case Top =>
    case Up(s, p, c, o, up) => PlugWithin(up, y, Build(s, p, c, t, o));
  }

  // ---- contents ----

  function InOrder(t: Tree): seq<Ptr> {
    match t
    case Leaf => []
    case Node(p, c, l, r) => InOrder(l) + [p] + InOrder(r)
  }

  function Ahead(x: Ctx): seq<Ptr> {
    match x
    case Top => []
    case Up(s, p, c, o, up) => Ahead(up) + if s == L then [] else InOrder(o) + [p]
  }

  function Behind(x: Ctx): seq<Ptr> {
    match x
    case Top => []
    case Up(s, p, c, o, up) => (if s == L then [p] + InOrder(o) else []) + Behind(up)
  }

  lemma {:induction false} Regroup(a: seq<Ptr>, b: seq<Ptr>, c: seq<Ptr>, d: seq<Ptr>, e: seq<Ptr>)
    ensures a + (b + c + d) + e == a + [] + b + (c + d + e) == a + (b + c) + d + ([] + e)
  {
    assert a + [] == a && [] + e == e;
  }

  /** `x`, `p` and `y` from left to right, or from right to left. */
  function Span(s: Side, x: seq<Ptr>, p: Ptr, y: seq<Ptr>): seq<Ptr> {
    if s == L then x + [p] + y else y + [p] + x
  }

  lemma {:induction false} BuildOrder(s: Side, p: Ptr, c: bool, near: Tree, far: Tree)
    ensures InOrder(Build(s, p, c, near, far)) == Span(s, InOrder(near), p, InOrder(far))
  {
  }

  lemma {:induction false} SpanAssoc(s: Side, a: seq<Ptr>, p: Ptr, b: seq<Ptr>, g: Ptr, u: seq<Ptr>)
    ensures Span(s, a, p, Span(s, b, g, u)) == Span(s, Span(s, a, p, b), g, u)
  {
    if s == L {
      assert a + [p] + (b + [g] + u) == (a + [p] + b) + [g] + u;
    } else {
      assert (u + [g] + b) + [p] + a == u + [g] + (b + [p] + a);
    }
  }

  lemma {:induction false} PlugOrder(x: Ctx, t: Tree)
    ensures InOrder(Plug(x, t)) == Ahead(x) + InOrder(t) + Behind(x)
    decreases x
  {
    match x
    case Top =>
    case Up(s, p, c, o, up) =>
      PlugOrder(up, Build(s, p, c, t, o));
      if s == L {
        Regroup(Ahead(up), InOrder(t), [p], InOrder(o), Behind(up));
      } else {
        Regroup(Ahead(up), InOrder(o), [p], InOrder(t), Behind(up));
      }
  }

  function Ptrs(t: Tree): set<Ptr> {
    match t
    case Leaf => {}
    case Node(p, c, l, r) => Ptrs(l) + {p} + Ptrs(r)
  }

  function CtxPtrs(x: Ctx): set<Ptr> {
    match x
    case Top => {}
    case Up(s, p, c, o, up) => {p} + Ptrs(o) + CtxPtrs(up)
  }

  /** No node occurs twice. */
  predicate Distinct(t: Tree) {
    match t
    case Leaf => true
    case Node(p, c, l, r) => p !in Ptrs(l) && p !in Ptrs(r) && Ptrs(l) !! Ptrs(r) && Distinct(l) && Distinct(r)
  }

  predicate CtxDistinct(x: Ctx) {
    match x
    case Top => true
    case Up(s, p, c, o, up) =>
      p !in Ptrs(o) && p !in CtxPtrs(up) && Ptrs(o) !! CtxPtrs(up) && Distinct(o) && CtxDistinct(up)
  }

  lemma {:induction false} PlugDistinct(x: Ctx, t: Tree)
    ensures Ptrs(Plug(x, t)) == CtxPtrs(x) + Ptrs(t)
    ensures Distinct(Plug(x, t)) <==> Distinct(t) && CtxDistinct(x) && Ptrs(t) !! CtxPtrs(x)
    decreases x
  {
    match x
    case Top =>
    case Up(s, p, c, o, up) =>
      PlugDistinct(up, Build(s, p, c, t, o));
  }

  lemma {:induction false} PtrsInOrder(t: Tree)
    ensures forall p :: p in Ptrs(t) <==> p in InOrder(t)
  {
    match t
    case Leaf =>
    case Node(p, c, l, r) =>
      PtrsInOrder(l);
      PtrsInOrder(r);
  }

  // ---- balance ----

  predicate IsBlack(t: Tree) {
    t.Node? ==> t.black
  }

  function Count(black: bool): nat {
    if black then 1 else 0
  }

  /** Every path down has `h` black nodes. */
  predicate Bal(t: Tree, h: int) {
    match t
    case Leaf => h == 0
    case Node(p, c, l, r) => Bal(l, h - Count(c)) && Bal(r, h - Count(c))
  }

  /** No red node has a red child. */
  predicate RedOk(t: Tree) {
    match t
    case Leaf => true
    case Node(p, c, l, r) => (c || (IsBlack(l) && IsBlack(r))) && RedOk(l) && RedOk(r)
  }

  /** The red-black rules. */
  ghost predicate RedBlack(t: Tree) {
    IsBlack(t) && RedOk(t) && exists h :: Bal(t, h)
  }

  /** Filling the hole with a tree of black height `h` keeps all paths alike. */
  predicate CtxBal(x: Ctx, h: int) {
    match x
    case Top => true
    case Up(s, p, c, o, up) => Bal(o, h) && CtxBal(up, h + Count(c))
  }

  /** The red rule above the hole, the root being black. */
  predicate CtxRed(x: Ctx) {
    match x
    case Top => true
    case Up(s, p, c, o, up) => RedOk(o) && (c || (IsBlack(o) && TakesRed(up))) && CtxRed(up)
  }

  /** The hole may hold a red node. */
  predicate TakesRed(x: Ctx) {
    x.Up? && x.black
  }

  lemma {:induction false} PlugRed(x: Ctx, t: Tree)
    ensures RedOk(Plug(x, t)) && IsBlack(Plug(x, t)) <==> RedOk(t) && CtxRed(x) && (IsBlack(t) || TakesRed(x))
    decreases x
  {
    match x
    case Top =>
    case Up(s, p, c, o, up) => PlugRed(up, Build(s, p, c, t, o));
  }

  lemma {:induction false} PlugBal(x: Ctx, t: Tree, h: int) returns (k: int)
    requires Bal(t, h) && CtxBal(x, h)
    ensures Bal(Plug(x, t), k)
    decreases x
  {
    match x
    case Top => k := h;
    case Up(s, p, c, o, up) => k := PlugBal(up, Build(s, p, c, t, o), h + Count(c));
  }

  lemma {:induction false} UnplugBal(x: Ctx, t: Tree, k: int) returns (h: int)
    requires Bal(Plug(x, t), k)
    ensures Bal(t, h) && CtxBal(x, h)
    decreases x
  {
    match x
    case Top => h := k;
    case Up(s, p, c, o, up) =>
      var g := UnplugBal(up, Build(s, p, c, t, o), k);
      h := g - Count(c);
  }

  /** A red-black tree falls apart into a subtree and its context, each in order. */
  lemma {:induction false} Unplug(x: Ctx, t: Tree) returns (h: int)
    requires RedBlack(Plug(x, t))
    ensures Bal(t, h) && CtxBal(x, h) && RedOk(t) && CtxRed(x) && (IsBlack(t) || TakesRed(x))
  {
    PlugRed(x, t);
    var k :| Bal(Plug(x, t), k);
    h := UnplugBal(x, t, k);
  }

  lemma {:induction false} Replug(x: Ctx, t: Tree, h: int)
    requires Bal(t, h) && CtxBal(x, h) && RedOk(t) && CtxRed(x) && (IsBlack(t) || TakesRed(x))
    ensures RedBlack(Plug(x, t))
  {
    PlugRed(x, t);
    var k := PlugBal(x, t, h);
  }

  lemma {:induction false} BalPositive(t: Tree, h: int)
    requires Bal(t, h)
    ensures h >= 0 && (h > 0 ==> t.Node?)
  {
    match t
    case Leaf =>
    case Node(p, c, l, r) => BalPositive(l, h - Count(c));
  }

  /** A tree without red-red pairs and of black height `h` has at least 2^h - 1 nodes, and is at most 2h high. */
  function Height(t: Tree): nat {
    match t
    case Leaf => 0
    case Node(p, c, l, r) => 1 + if Height(l) >= Height(r) then Height(l) else Height(r)
  }

  function Pow2(n: nat): nat {
    if n == 0 then 1 else 2 * Pow2(n - 1)
  }

  lemma {:induction false} SizeFromBlack(t: Tree, h: int)
    requires Bal(t, h)
    ensures h >= 0 && |InOrder(t)| + 1 >= Pow2(h)
  {
    BalPositive(t, h);
    match t
    case Leaf =>
    case Node(p, c, l, r) =>
      SizeFromBlack(l, h - Count(c));
      SizeFromBlack(r, h - Count(c));
  }

  lemma {:induction false} HeightFromBlack(t: Tree, h: int)
    requires Bal(t, h) && RedOk(t)
    ensures Height(t) <= 2 * h + if IsBlack(t) then 0 else 1
  {
    match t
    case Leaf =>
    case Node(p, c, l, r) =>
      HeightFromBlack(l, h - Count(c));
      HeightFromBlack(r, h - Count(c));
  }

  lemma {:induction false} Pow2Mono(m: nat, n: nat)
    requires m <= n
    ensures Pow2(m) <= Pow2(n)
    decreases n
  {
    if m < n {
      Pow2Mono(m, n - 1);
    }
  }

  /** The height is at most 2 * log2(n + 1): 2^(height / 2) <= n + 1, halves rounded up. */
  lemma {:induction false} HeightBound(t: Tree)
    requires RedBlack(t)
    ensures Pow2((Height(t) + 1) / 2) <= |InOrder(t)| + 1
  {
    var h :| Bal(t, h);
    SizeFromBlack(t, h);
    HeightFromBlack(t, h);
    Pow2Mono((Height(t) + 1) / 2, h);
  }

  lemma {:induction false} BuildBalance(s: Side, p: Ptr, c: bool, near: Tree, far: Tree, h: int)
    ensures Bal(Build(s, p, c, near, far), h) <==> Bal(near, h - Count(c)) && Bal(far, h - Count(c))
    ensures RedOk(Build(s, p, c, near, far)) <==> (c || (IsBlack(near) && IsBlack(far))) && RedOk(near) && RedOk(far)
    ensures IsBlack(Build(s, p, c, near, far)) <==> c
  {
  }

  lemma {:induction false} PaintedBuild(s: Side, p: Ptr, c: bool, near: Tree, far: Tree, c': bool)
    ensures Paint(Build(s, p, c, near, far), c') == Build(s, p, c', near, far)
  {
  }

  /** A red node painted black adds one to the black height. */
  lemma {:induction false} PaintBlack(t: Tree, h: int)
    requires Bal(t, h) && RedOk(t) && !IsBlack(t)
    ensures Bal(Paint(t, true), h + 1) && RedOk(Paint(t, true)) && IsBlack(Paint(t, true))
  {
  }

  // ---- rotations ----

  /** A node and its child on side `s`, with the three subtrees. */
  function Straight(s: Side, g: Ptr, cg: bool, p: Ptr, cp: bool, a: Tree, b: Tree, u: Tree): Tree {
    Build(s, g, cg, Build(s, p, cp, a, b), u)
  }

  function Rotated(s: Side, g: Ptr, cg: bool, p: Ptr, cp: bool, a: Tree, b: Tree, u: Tree): Tree {
    Build(s, p, cp, a, Build(s, g, cg, b, u))
  }

  function Paint(t: Tree, black: bool): Tree {
    if t.Leaf? then t else t.(black := black)
  }

  lemma {:induction false} PaintKeeps(t: Tree, black: bool)
    ensures InOrder(Paint(t, black)) == InOrder(t) && Ptrs(Paint(t, black)) == Ptrs(t)
      && (Distinct(Paint(t, black)) <==> Distinct(t))
    ensures Root(Paint(t, black)) == Root(t)
  {
  }

  lemma {:induction false} BuildDistinct(s: Side, p: Ptr, c: bool, near: Tree, far: Tree)
    ensures Ptrs(Build(s, p, c, near, far)) == {p} + Ptrs(near) + Ptrs(far)
    ensures Distinct(Build(s, p, c, near, far)) <==>
        p !in Ptrs(near) && p !in Ptrs(far) && Ptrs(near) !! Ptrs(far) && Distinct(near) && Distinct(far)
  {
  }

  /** A rotation keeps the order of the nodes. */
  lemma {:induction false} RotatedOrder(s: Side, g: Ptr, cg: bool, p: Ptr, cp: bool, cg': bool, cp': bool, a: Tree,
      b: Tree, u: Tree)
    ensures InOrder(Rotated(s, g, cg', p, cp', a, b, u)) == InOrder(Straight(s, g, cg, p, cp, a, b, u))
  {
    hide Build, InOrder, Span;
    BuildOrder(s, p, cp, a, b);
    BuildOrder(s, g, cg, Build(s, p, cp, a, b), u);
    BuildOrder(s, g, cg', b, u);
    BuildOrder(s, p, cp', a, Build(s, g, cg', b, u));
    SpanAssoc(s, InOrder(a), p, InOrder(b), g, InOrder(u));
  }

  lemma {:induction false} RotatedDistinct(s: Side, g: Ptr, cg: bool, p: Ptr, cp: bool, cg': bool, cp': bool, a: Tree,
      b: Tree, u: Tree)
    ensures var t, t' := Straight(s, g, cg, p, cp, a, b, u), Rotated(s, g, cg', p, cp', a, b, u);
            Ptrs(t') == Ptrs(t) && (Distinct(t') <==> Distinct(t))
  {
    hide Build, Ptrs, Distinct;
    BuildDistinct(s, p, cp, a, b);
    BuildDistinct(s, g, cg, Build(s, p, cp, a, b), u);
    BuildDistinct(s, g, cg', b, u);
    BuildDistinct(s, p, cp', a, Build(s, g, cg', b, u));
  }
}
