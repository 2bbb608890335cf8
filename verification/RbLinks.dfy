/** Red-black trees in an arena: parent and child links, stored summaries, and what local changes do to them. */
module RbLinks {
  import opened RbShape

  /** A node: parent and colour kept apart, two children, and the summary of its subtree. */
  datatype RbNode<A> = RbNode(parent: Ptr, black: bool, left: Ptr, right: Ptr, aug: A)

  type Arena<A> = map<Ptr, RbNode<A>>

  function KidOf<A>(n: RbNode<A>, s: Side): Ptr {
    if s == L then n.left else n.right
  }

  function WithKid<A>(n: RbNode<A>, s: Side, k: Ptr): RbNode<A> {
    if s == L then n.(left := k) else n.(right := k)
  }

  function Make<A>(s: Side, parent: Ptr, black: bool, near: Ptr, far: Ptr, aug: A): RbNode<A> {
    if s == L then RbNode(parent, black, near, far, aug) else RbNode(parent, black, far, near, aug)
  }

  /** Children after a child has been set. */
  lemma {:induction false} KidSet<A>(n: RbNode<A>, s: Side, k: Ptr)
    ensures var n' := WithKid(n, s, k);
            n'.parent == n.parent && n'.black == n.black && n'.aug == n.aug && KidOf(n', s) == k
            && KidOf(n', Opp(s)) == KidOf(n, Opp(s))
  {
  }

  /** Colour, parent and summary do not touch the children. */
  lemma {:induction false} KidsKept<A>(n: RbNode<A>, n': RbNode<A>, s: Side)
    requires n.left == n'.left && n.right == n'.right
    ensures KidOf(n, s) == KidOf(n', s)
  {
  }

  /** Both children, whichever side one starts from. */
  lemma {:induction false} EitherKid<A>(n: RbNode<A>, s: Side, q: Ptr)
    requires KidOf(n, s) != q && KidOf(n, Opp(s)) != q
    ensures n.left != q && n.right != q
  {
  }

  /** The side a child is on. */
  lemma {:induction false} WhichSide<A>(n: RbNode<A>, s: Side, q: Ptr)
    requires KidOf(n, s) == q && KidOf(n, Opp(s)) != q
    ensures (if n.left == q then L else R) == (if q != n.right then L else R) == s
  {
  }

  /** How subtree summaries are computed, and what they mean for the nodes in order. */
  datatype Alg<!A> = Alg(unit: A, comb: (A, Ptr, A) -> A, sum: seq<Ptr> -> A)

  /** The computed summary depends only on the in-order contents. */
  ghost predicate Law<A>(alg: Alg<A>) {
    && alg.sum([]) == alg.unit
    && forall s, p, t {:trigger alg.sum(s + [p] + t)} :: alg.comb(alg.sum(s), p, alg.sum(t)) == alg.sum(s + [p] + t)
  }

  function Combine<A>(alg: Alg<A>, s: Side, near: A, p: Ptr, far: A): A {
    if s == L then alg.comb(near, p, far) else alg.comb(far, p, near)
  }

  /** The stored summary of a child, perhaps NULL. */
  function AugAt<A>(m: Arena<A>, p: Ptr, alg: Alg<A>): A {
    if p != NULL && p in m then m[p].aug else alg.unit
  }

  /** The summary computed from the children's. */
  function Compute<A>(m: Arena<A>, p: Ptr, alg: Alg<A>): A
    requires p in m
  {
    alg.comb(AugAt(m, m[p].left, alg), p, AugAt(m, m[p].right, alg))
  }

  lemma {:induction false} ComputeSide<A>(m: Arena<A>, p: Ptr, alg: Alg<A>, s: Side)
    requires p in m
    ensures Compute(m, p, alg) == Combine(alg, s, AugAt(m, KidOf(m[p], s), alg), p, AugAt(m, KidOf(m[p], Opp(s)), alg))
  {
  }

  // ---- links and summaries ----

  ghost predicate Linked<A>(t: Tree, m: Arena<A>, parent: Ptr) {
    match t
    case Leaf => true
    case Node(p, c, l, r) =>
      && p != NULL && p in m && m[p].parent == parent && m[p].black == c && m[p].left == Root(l)
         && m[p].right == Root(r)
      && Linked(l, m, p) && Linked(r, m, p)
  }

  function TopPtr(x: Ctx, base: Ptr): Ptr {
    if x.Top? then base else x.ptr
  }

  ghost predicate LinkedCtx<A>(x: Ctx, m: Arena<A>, root: Ptr, base: Ptr, child: Ptr) {
    match x
    case Top => root == child
    case Up(s, p, c, o, up) =>
      && p != NULL && p in m && m[p].parent == TopPtr(up, base) && m[p].black == c && KidOf(m[p], s) == child
      && KidOf(m[p], Opp(s)) == Root(o)
      && Linked(o, m, p) && LinkedCtx(up, m, root, base, p)
  }

  function RootAug<A>(t: Tree, m: Arena<A>, alg: Alg<A>): A {
    if t.Node? && t.ptr in m then m[t.ptr].aug else alg.unit
  }

  /** Every stored summary is the one computed from the children's. */
  ghost predicate Right<A>(t: Tree, m: Arena<A>, alg: Alg<A>) {
    match t
    case Leaf => true
    case Node(p, c, l, r) =>
      p in m && m[p].aug == alg.comb(RootAug(l, m, alg), p, RootAug(r, m, alg)) && Right(l, m, alg) && Right(r, m, alg)
  }

  /** So it is above the hole, when the hole's summary is `a`. */
  ghost predicate RightCtx<A>(x: Ctx, m: Arena<A>, alg: Alg<A>, a: A) {
    match x
    case Top => true
    case Up(s, p, c, o, up) =>
      p in m && m[p].aug == Combine(alg, s, a, p, RootAug(o, m, alg)) && Right(o, m, alg)
      && RightCtx(up, m, alg, m[p].aug)
  }

  lemma {:induction false} PlugLinked<A>(x: Ctx, t: Tree, m: Arena<A>, root: Ptr, base: Ptr)
    ensures Linked(Plug(x, t), m, base) && Root(Plug(x, t)) == root <==>
        Linked(t, m, TopPtr(x, base)) && LinkedCtx(x, m, root, base, Root(t))
    decreases x
  {
    match x
    case Top =>
    case Up(s, p, c, o, up) => PlugLinked(up, Build(s, p, c, t, o), m, root, base);
  }

  lemma {:induction false} PlugRight<A>(x: Ctx, t: Tree, m: Arena<A>, alg: Alg<A>)
    ensures Right(Plug(x, t), m, alg) <==> Right(t, m, alg) && RightCtx(x, m, alg, RootAug(t, m, alg))
    decreases x
  {
    match x
    case Top =>
    case Up(s, p, c, o, up) => PlugRight(up, Build(s, p, c, t, o), m, alg);
  }

  /** A tree whose summaries agree with the computation stores the meaning of its contents. */
  lemma {:induction false} RightSum<A>(t: Tree, m: Arena<A>, alg: Alg<A>)
    requires Law(alg) && Right(t, m, alg)
    ensures RootAug(t, m, alg) == alg.sum(InOrder(t))
  {
    match t
    case Leaf =>
    case Node(p, c, l, r) =>
      RightSum(l, m, alg);
      RightSum(r, m, alg);
      assert InOrder(t) == InOrder(l) + [p] + InOrder(r);
  }

  lemma {:induction false} LinkedKeys<A>(t: Tree, m: Arena<A>, parent: Ptr)
    requires Linked(t, m, parent)
    ensures NULL !in Ptrs(t) && Ptrs(t) <= m.Keys
  {
    match t
    case Leaf =>
    case Node(p, c, l, r) =>
      LinkedKeys(l, m, p);
      LinkedKeys(r, m, p);
  }

  lemma {:induction false} LinkedCtxKeys<A>(x: Ctx, m: Arena<A>, root: Ptr, base: Ptr, child: Ptr)
    requires LinkedCtx(x, m, root, base, child)
    ensures NULL !in CtxPtrs(x) && CtxPtrs(x) <= m.Keys
    decreases x
  {
    match x
    case Top =>
    case Up(s, p, c, o, up) =>
      LinkedKeys(o, m, p);
      LinkedCtxKeys(up, m, root, base, p);
  }

  // ---- what stays the same ----

  ghost predicate Same<A>(m: Arena<A>, m': Arena<A>, s: set<Ptr>) {
    forall p :: p in s && p in m ==> p in m' && m'[p] == m[p]
  }

  lemma {:induction false} Frame<A>(t: Tree, m: Arena<A>, m': Arena<A>, parent: Ptr, alg: Alg<A>)
    requires Linked(t, m, parent) && Same(m, m', Ptrs(t))
    ensures Linked(t, m', parent) && RootAug(t, m', alg) == RootAug(t, m, alg)
    ensures Right(t, m, alg) ==> Right(t, m', alg)
  {
    match t
    case Leaf =>
    case Node(p, c, l, r) =>
      Frame(l, m, m', p, alg);
      Frame(r, m, m', p, alg);
  }

  /** A subtree gets another parent, and its root perhaps another colour. */
  lemma {:induction false} Rehung<A>(t: Tree, m: Arena<A>, m': Arena<A>, parent: Ptr, parent': Ptr, black: bool,
      alg: Alg<A>)
    requires Linked(t, m, parent) && Distinct(t) && Right(t, m, alg)
    requires t.Node? ==> t.ptr in m' && m'[t.ptr] == m[t.ptr].(parent := parent', black := black)
    requires Same(m, m', Ptrs(t) - {Root(t)})
    ensures Linked(Paint(t, black), m', parent') && Right(Paint(t, black), m', alg)
      && RootAug(Paint(t, black), m', alg) == RootAug(t, m, alg)
  {
    match t
    case Leaf =>
    case Node(p, c, l, r) =>
      Frame(l, m, m', p, alg);
      Frame(r, m, m', p, alg);
  }

  /** The hole gets another child. */
  lemma {:induction false} CtxFrame<A>(x: Ctx, m: Arena<A>, m': Arena<A>, root: Ptr, root': Ptr, base: Ptr, child: Ptr,
      child': Ptr, alg: Alg<A>)
    requires LinkedCtx(x, m, root, base, child) && CtxDistinct(x)
    requires if x.Up? then root' == root && x.ptr in m' && m'[x.ptr] == WithKid(m[x.ptr], x.side, child')
        else root' == child'
    requires Same(m, m', CtxPtrs(x) - {TopPtr(x, NULL)})
    ensures LinkedCtx(x, m', root', base, child')
    ensures forall a :: RightCtx(x, m, alg, a) ==> RightCtx(x, m', alg, a)
  {
    match x
    case Top =>
    case Up(s, p, c, o, up) =>
      Frame(o, m, m', p, alg);
      CtxSame(up, m, m', root, base, p, alg);
  }

  lemma {:induction false} CtxSame<A>(x: Ctx, m: Arena<A>, m': Arena<A>, root: Ptr, base: Ptr, child: Ptr, alg: Alg<A>)
    requires LinkedCtx(x, m, root, base, child) && Same(m, m', CtxPtrs(x))
    ensures LinkedCtx(x, m', root, base, child)
    ensures forall a :: RightCtx(x, m, alg, a) ==> RightCtx(x, m', alg, a)
    decreases x
  {
    match x
    case Top =>
    case Up(s, p, c, o, up) =>
      Frame(o, m, m', p, alg);
      CtxSame(up, m, m', root, base, p, alg);
  }

  // ---- rotations ----

  /** The summaries of a rotation's two nodes. */
  lemma {:induction false} RotatedSums<A>(alg: Alg<A>, s: Side, m: Arena<A>, g: Ptr, p: Ptr, a: Tree, b: Tree, u: Tree)
    requires Law(alg) && Right(a, m, alg) && Right(b, m, alg) && Right(u, m, alg)
    ensures var x, y, z := RootAug(a, m, alg), RootAug(b, m, alg), RootAug(u, m, alg);
            Combine(alg, s, x, p, Combine(alg, s, y, g, z)) == Combine(alg, s, Combine(alg, s, x, p, y), g, z)
  {
    RightSum(a, m, alg);
    RightSum(b, m, alg);
    RightSum(u, m, alg);
    SpanSums(alg, s, InOrder(a), p, InOrder(b), g, InOrder(u));
  }

  lemma {:induction false} CombineSums<A>(alg: Alg<A>, s: Side, x: seq<Ptr>, p: Ptr, y: seq<Ptr>)
    requires Law(alg)
    ensures Combine(alg, s, alg.sum(x), p, alg.sum(y)) == alg.sum(Span(s, x, p, y))
  {
  }

  lemma {:induction false} SpanSums<A>(alg: Alg<A>, s: Side, a: seq<Ptr>, p: Ptr, b: seq<Ptr>, g: Ptr, u: seq<Ptr>)
    requires Law(alg)
    ensures var x, y, z := alg.sum(a), alg.sum(b), alg.sum(u);
            Combine(alg, s, x, p, Combine(alg, s, y, g, z)) == Combine(alg, s, Combine(alg, s, x, p, y), g, z)
  {
    hide Span, Combine;
    CombineSums(alg, s, a, p, b);
    CombineSums(alg, s, b, g, u);
    CombineSums(alg, s, a, p, Span(s, b, g, u));
    CombineSums(alg, s, Span(s, a, p, b), g, u);
    SpanAssoc(s, a, p, b, g, u);
  }

  lemma {:induction false} LinkedBuild<A>(s: Side, p: Ptr, c: bool, near: Tree, far: Tree, m: Arena<A>, parent: Ptr,
      alg: Alg<A>)
    ensures Linked(Build(s, p, c, near, far), m, parent) <==>
            && p != NULL && p in m && m[p].parent == parent && m[p].black == c && KidOf(m[p], s) == Root(near)
            && KidOf(m[p], Opp(s)) == Root(far)
            && Linked(near, m, p) && Linked(far, m, p)
    ensures Right(Build(s, p, c, near, far), m, alg) <==>
            && p in m && m[p].aug == Combine(alg, s, RootAug(near, m, alg), p, RootAug(far, m, alg))
               && Right(near, m, alg) && Right(far, m, alg)
    ensures RootAug(Build(s, p, c, near, far), m, alg) == if p in m then m[p].aug else alg.unit
    ensures Root(Build(s, p, c, near, far)) == p
  {
  }

  /** What a rotation writes: `p` takes the place of `g`, which becomes its child; `a` may change its colour. */
  ghost predicate Rotates<A>(m: Arena<A>, m': Arena<A>, alg: Alg<A>, parent: Ptr, s: Side, g: Ptr, cg: bool, p: Ptr,
      cp: bool, a: Tree, ca: bool, b: Tree, u: Tree) {
    && g in m && p in m'
    && m'[p] == Make(s, parent, cp, Root(a), g, m[g].aug)
    && g in m' && m'[g] == Make(s, p, cg, Root(b), Root(u), Combine(alg, s, RootAug(b, m, alg), g, RootAug(u, m, alg)))
    && (a.Node? ==> a.ptr in m && a.ptr in m' && m'[a.ptr] == m[a.ptr].(black := ca))
    && (b.Node? ==> b.ptr in m && b.ptr in m' && m'[b.ptr] == m[b.ptr].(parent := g))
    && Same(m, m', Ptrs(a) - {Root(a)}) && Same(m, m', Ptrs(b) - {Root(b)}) && Same(m, m', Ptrs(u))
  }

  lemma {:induction false} RotateLinks<A>(m: Arena<A>, m': Arena<A>, alg: Alg<A>, parent: Ptr, s: Side, g: Ptr,
      cg: bool, cg': bool, p: Ptr, cp: bool, cp': bool, a: Tree, ca: bool, b: Tree, u: Tree)
    requires var t := Straight(s, g, cg, p, cp, a, b, u); Linked(t, m, parent) && Distinct(t) && Right(t, m, alg)
    requires Law(alg) && Rotates(m, m', alg, parent, s, g, cg', p, cp', a, ca, b, u)
    ensures var t, t' := Straight(s, g, cg, p, cp, a, b, u), Rotated(s, g, cg', p, cp', Paint(a, ca), b, u);
            Linked(t', m', parent) && Right(t', m', alg) && RootAug(t', m', alg) == RootAug(t, m, alg)
  {
    BuildDistinct(s, p, cp, a, b);
    BuildDistinct(s, g, cg, Build(s, p, cp, a, b), u);
    LinkedBuild(s, p, cp, a, b, m, g, alg);
    LinkedBuild(s, g, cg, Build(s, p, cp, a, b), u, m, parent, alg);
    hide Build, Linked, Right, Distinct, Ptrs, Law;
    if a.Node? { RootColour(a, m, p); }
    Rehung(a, m, m', p, p, ca, alg);
    if b.Node? { RootColour(b, m, p); }
    Rehung(b, m, m', p, g, b.Node? && b.black, alg);
    Unpainted(b);
    PaintKeeps(a, ca);
    Frame(u, m, m', g, alg);
    RotatedSums(alg, s, m, g, p, a, b, u);
    LinkedBuild(s, g, cg', b, u, m', p, alg);
    LinkedBuild(s, p, cp', Paint(a, ca), Build(s, g, cg', b, u), m', parent, alg);
  }

  lemma {:induction false} RootColour<A>(t: Tree, m: Arena<A>, parent: Ptr)
    requires t.Node? && Linked(t, m, parent)
    ensures t.ptr in m && m[t.ptr].black == t.black && m[t.ptr].parent == parent && t.ptr != NULL && t.ptr in Ptrs(t)
  {
  }

  lemma {:induction false} Unpainted(t: Tree)
    ensures Paint(t, t.Node? && t.black) == t
  {
  }

  // ---- summaries alone ----

  /** Only summaries of nodes in `s` change. */
  ghost predicate Sums<A>(m: Arena<A>, m': Arena<A>, s: set<Ptr>) {
    && m'.Keys == m.Keys
    && forall p :: p in m ==> m'[p] == m[p] || (p in s && m'[p] == m[p].(aug := m'[p].aug))
  }

  lemma {:induction false} SumsLinked<A>(t: Tree, m: Arena<A>, m': Arena<A>, s: set<Ptr>, parent: Ptr)
    requires Linked(t, m, parent) && Sums(m, m', s)
    ensures Linked(t, m', parent)
  {
    match t
    case Leaf =>
    case Node(p, c, l, r) =>
      SumsLinked(l, m, m', s, p);
      SumsLinked(r, m, m', s, p);
  }

  lemma {:induction false} SumsLinkedCtx<A>(x: Ctx, m: Arena<A>, m': Arena<A>, s: set<Ptr>, root: Ptr, base: Ptr,
      child: Ptr)
    requires LinkedCtx(x, m, root, base, child) && Sums(m, m', s)
    ensures LinkedCtx(x, m', root, base, child)
    decreases x
  {
    match x
    case Top =>
    case Up(_, p, c, o, up) =>
      SumsLinked(o, m, m', s, p);
      SumsLinkedCtx(up, m, m', s, root, base, p);
  }

  // ---- the whole tree ----

  /** Arena and root pointer hold the tree. */
  ghost predicate Holds<A>(t: Tree, m: Arena<A>, root: Ptr, alg: Alg<A>) {
    Linked(t, m, NULL) && root == Root(t) && Distinct(t) && Right(t, m, alg) && Law(alg)
  }

  /** The tree apart: a subtree and its context. */
  ghost predicate Parts<A>(x: Ctx, t: Tree, m: Arena<A>, root: Ptr, alg: Alg<A>) {
    && Linked(t, m, TopPtr(x, NULL)) && Distinct(t) && Right(t, m, alg)
    && LinkedCtx(x, m, root, NULL, Root(t)) && CtxDistinct(x) && RightCtx(x, m, alg, RootAug(t, m, alg))
    && Ptrs(t) !! CtxPtrs(x) && Law(alg)
  }

  lemma {:induction false} HoldsParts<A>(x: Ctx, t: Tree, m: Arena<A>, root: Ptr, alg: Alg<A>)
    ensures Holds(Plug(x, t), m, root, alg) <==> Parts(x, t, m, root, alg)
  {
    hide Linked, Right, Distinct, LinkedCtx, RightCtx, CtxDistinct, Law, Plug;
    PlugLinked(x, t, m, root, NULL);
    PlugRight(x, t, m, alg);
    PlugDistinct(x, t);
  }

  /** The subtree at the hole is exchanged for one of the same nodes and summary. */
  lemma {:induction false} Exchange<A>(x: Ctx, t: Tree, t': Tree, m: Arena<A>, m': Arena<A>, root: Ptr, root': Ptr,
      alg: Alg<A>)
    requires Parts(x, t, m, root, alg)
    requires Linked(t', m', TopPtr(x, NULL)) && Right(t', m', alg) && RootAug(t', m', alg) == RootAug(t, m, alg)
    requires Ptrs(t') == Ptrs(t) && Distinct(t')
    requires if x.Up?
        then root' == root && x.ptr in m && x.ptr in m' && m'[x.ptr] == WithKid(m[x.ptr], x.side, Root(t'))
        else root' == Root(t')
    requires Same(m, m', CtxPtrs(x) - {TopPtr(x, NULL)})
    ensures Parts(x, t', m', root', alg)
  {
    hide Linked, Right, Distinct, LinkedCtx, RightCtx, CtxDistinct, Law;
    CtxFrame(x, m, m', root, root', NULL, Root(t), Root(t'), alg);
  }

  // ---- recolouring a node and its children ----

  lemma {:induction false} RecolourLinks<A>(m: Arena<A>, m': Arena<A>, alg: Alg<A>, parent: Ptr, s: Side, g: Ptr,
      cg: bool, cg': bool, a: Tree, ca: bool, b: Tree, cb: bool)
    requires var t := Build(s, g, cg, a, b); Linked(t, m, parent) && Distinct(t) && Right(t, m, alg)
    requires g in m && g in m' && m'[g] == m[g].(black := cg')
    requires a.Node? ==> a.ptr in m && a.ptr in m' && m'[a.ptr] == m[a.ptr].(black := ca)
    requires b.Node? ==> b.ptr in m && b.ptr in m' && m'[b.ptr] == m[b.ptr].(black := cb)
    requires Same(m, m', Ptrs(a) - {Root(a)}) && Same(m, m', Ptrs(b) - {Root(b)})
    ensures var t, t' := Build(s, g, cg, a, b), Build(s, g, cg', Paint(a, ca), Paint(b, cb));
            Linked(t', m', parent) && Right(t', m', alg) && RootAug(t', m', alg) == RootAug(t, m, alg)
            && Ptrs(t') == Ptrs(t) && Distinct(t')
  {
    BuildDistinct(s, g, cg, a, b);
    LinkedBuild(s, g, cg, a, b, m, parent, alg);
    hide Build, Linked, Right, Distinct, Ptrs, Paint;
    PaintKeeps(a, ca);
    PaintKeeps(b, cb);
    if a.Node? { RootColour(a, m, g); }
    if b.Node? { RootColour(b, m, g); }
    Rehung(a, m, m', g, g, ca, alg);
    Rehung(b, m, m', g, g, cb, alg);
    LinkedBuild(s, g, cg', Paint(a, ca), Paint(b, cb), m', parent, alg);
    BuildDistinct(s, g, cg', Paint(a, ca), Paint(b, cb));
  }

  // ---- writes ----

  /** Nodes outside `w` are as they were. */
  ghost predicate OnlyOn<A>(m: Arena<A>, m': Arena<A>, w: set<Ptr>) {
    m'.Keys == m.Keys && forall q :: q in m && q != NULL && q !in w ==> m'[q] == m[q]
  }

  lemma {:induction false} SameFrom<A>(m: Arena<A>, m': Arena<A>, w: set<Ptr>, s: set<Ptr>)
    requires OnlyOn(m, m', w) && s !! w && NULL !in s
    ensures Same(m, m', s)
  {
  }

  lemma {:induction false} OnlyOnTwice<A>(m: Arena<A>, m1: Arena<A>, m2: Arena<A>, w1: set<Ptr>, w2: set<Ptr>,
      w: set<Ptr>)
    requires OnlyOn(m, m1, w1) && OnlyOn(m1, m2, w2) && w1 + w2 <= w + {NULL}
    ensures OnlyOn(m, m2, w)
  {
  }

  lemma {:induction false} RootIn(t: Tree)
    ensures t.Node? ==> Root(t) in Ptrs(t)
    ensures t.Leaf? ==> Ptrs(t) == {} && Root(t) == NULL
  {
  }

  /** All nodes are in the arena, and NULL is none of them. */
  lemma {:induction false} PartsKeys<A>(x: Ctx, t: Tree, m: Arena<A>, root: Ptr, alg: Alg<A>)
    requires Parts(x, t, m, root, alg)
    ensures NULL !in Ptrs(t) && NULL !in CtxPtrs(x) && Ptrs(t) <= m.Keys && CtxPtrs(x) <= m.Keys
      && Ptrs(t) !! CtxPtrs(x)
  {
    LinkedKeys(t, m, TopPtr(x, NULL));
    LinkedCtxKeys(x, m, root, NULL, Root(t));
  }
}
