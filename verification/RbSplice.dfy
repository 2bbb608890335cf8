/** Taking a node out of a red-black tree: what is relinked, and which summaries are still to be computed. */
module RbSplice {
  import opened RbShape
  import opened RbLinks

  /** A node without its summary. */
  datatype Link = Link(parent: Ptr, black: bool, left: Ptr, right: Ptr)

  function LinkOf<A>(n: RbNode<A>): Link {
    Link(n.parent, n.black, n.left, n.right)
  }

  ghost predicate SameLinks<A>(m: Arena<A>, m': Arena<A>, s: set<Ptr>) {
    forall p :: p in s && p in m ==> p in m' && LinkOf(m'[p]) == LinkOf(m[p])
  }

  ghost predicate SameAugs<A>(m: Arena<A>, m': Arena<A>, s: set<Ptr>) {
    forall p :: p in s && p in m ==> p in m' && m'[p].aug == m[p].aug
  }

  lemma {:induction false} FrameLinks<A>(t: Tree, m: Arena<A>, m': Arena<A>, parent: Ptr)
    requires Linked(t, m, parent) && SameLinks(m, m', Ptrs(t))
    ensures Linked(t, m', parent)
  {
    match t
    case Leaf =>
    case Node(p, c, l, r) =>
      FrameLinks(l, m, m', p);
      FrameLinks(r, m, m', p);
  }

  lemma {:induction false} FrameAugs<A>(t: Tree, m: Arena<A>, m': Arena<A>, alg: Alg<A>)
    requires Right(t, m, alg) && SameAugs(m, m', Ptrs(t))
    ensures Right(t, m', alg) && RootAug(t, m', alg) == RootAug(t, m, alg)
  {
    match t
    case Leaf =>
    case Node(p, c, l, r) =>
      FrameAugs(l, m, m', alg);
      FrameAugs(r, m, m', alg);
  }

  lemma {:induction false} FrameAugsCtx<A>(x: Ctx, m: Arena<A>, m': Arena<A>, alg: Alg<A>, a: A)
    requires RightCtx(x, m, alg, a) && SameAugs(m, m', CtxPtrs(x))
    ensures RightCtx(x, m', alg, a)
    decreases x
  {
    match x
    case Top =>
    case Up(s, p, c, o, up) =>
      FrameAugs(o, m, m', alg);
      FrameAugsCtx(up, m, m', alg, m[p].aug);
  }

  /** A subtree under another parent, its root perhaps in another colour. */
  lemma {:induction false} RehungLinks<A>(t: Tree, m: Arena<A>, m': Arena<A>, parent: Ptr, parent': Ptr, black: bool)
    requires Linked(t, m, parent) && Distinct(t)
    requires t.Node? ==> t.ptr in m' && LinkOf(m'[t.ptr]) == LinkOf(m[t.ptr]).(parent := parent', black := black)
    requires SameLinks(m, m', Ptrs(t) - {Root(t)})
    ensures Linked(Paint(t, black), m', parent')
  {
    match t
    case Leaf =>
    case Node(p, c, l, r) =>
      FrameLinks(l, m, m', p);
      FrameLinks(r, m, m', p);
  }

  lemma {:induction false} FrameLinksCtx<A>(x: Ctx, m: Arena<A>, m': Arena<A>, root: Ptr, base: Ptr, child: Ptr)
    requires LinkedCtx(x, m, root, base, child) && SameLinks(m, m', CtxPtrs(x))
    ensures LinkedCtx(x, m', root, base, child)
    decreases x
  {
    match x
    case Top =>
    case Up(s, p, c, o, up) =>
      FrameLinks(o, m, m', p);
      FrameLinksCtx(up, m, m', root, base, p);
  }

  /** The hole gets another child. */
  lemma {:induction false} HoleLinks<A>(x: Ctx, m: Arena<A>, m': Arena<A>, root: Ptr, root': Ptr, base: Ptr, child: Ptr,
      child': Ptr)
    requires LinkedCtx(x, m, root, base, child) && CtxDistinct(x)
    requires if x.Up?
        then root' == root && x.ptr in m' && LinkOf(m'[x.ptr]) == LinkOf(WithKid(m[x.ptr], x.side, child'))
        else root' == child'
    requires SameLinks(m, m', CtxPtrs(x) - {TopPtr(x, NULL)})
    ensures LinkedCtx(x, m', root', base, child')
  {
    match x
    case Top =>
    case Up(s, p, c, o, up) =>
      FrameLinks(o, m, m', p);
      FrameLinksCtx(up, m, m', root, base, p);
  }

  /** The outermost node of a context. */
  function Last(x: Ctx): Ptr
    requires x.Up?
    ensures Last(x) in CtxPtrs(x)
    decreases x
  {
    if x.up.Top? then x.ptr else Last(x.up)
  }

  /** The outermost node gets another parent. */
  lemma {:induction false} RebasedLinks<A>(x: Ctx, m: Arena<A>, m': Arena<A>, root: Ptr, base: Ptr, base': Ptr,
      child: Ptr)
    requires LinkedCtx(x, m, root, base, child) && CtxDistinct(x) && x.Up?
    requires Last(x) in m && Last(x) in m' && LinkOf(m'[Last(x)]) == LinkOf(m[Last(x)]).(parent := base')
    requires SameLinks(m, m', CtxPtrs(x) - {Last(x)})
    ensures LinkedCtx(x, m', root, base', child)
    decreases x
  {
    FrameLinks(x.other, m, m', x.ptr);
    if x.up.Up? {
      RebasedLinks(x.up, m, m', root, base, base', x.ptr);
    }
  }

  lemma {:induction false} PlugRoot(x: Ctx, t: Tree)
    requires x.Up?
    ensures Plug(x, t).Node? && Root(Plug(x, t)) == Last(x)
    decreases x
  {
    if x.up.Up? {
      PlugRoot(x.up, Build(x.side, x.ptr, x.black, t, x.other));
    }
  }

  // ---- summaries still to be computed ----

  /**
   * All summaries are right, except perhaps on the path from the root of `t` up to the top of `x`, where those above
   * `t` fit the one still stored at `t`.
   */
  ghost predicate Pending<A>(x: Ctx, t: Tree, m: Arena<A>, root: Ptr, stop: Ptr, alg: Alg<A>) {
    && t.Node? && t.ptr != NULL && t.ptr in m
    && LinkOf(m[t.ptr]) == Link(TopPtr(x, stop), m[t.ptr].black, Root(t.left), Root(t.right))
    && Right(t.left, m, alg) && Right(t.right, m, alg) && LinkedCtx(x, m, root, stop, t.ptr)
    && RightCtx(x, m, alg, m[t.ptr].aug)
    && Distinct(t) && CtxDistinct(x) && Ptrs(t) !! CtxPtrs(x) && stop !in Ptrs(t) + CtxPtrs(x) && NULL !in Ptrs(t)
  }

  lemma {:induction false} ChildAug<A>(t: Tree, m: Arena<A>, alg: Alg<A>)
    requires Right(t, m, alg) && NULL !in Ptrs(t)
    ensures AugAt(m, Root(t), alg) == RootAug(t, m, alg)
  {
  }

  /** The summary stored at the top of the path is the computed one: all are right. */
  lemma {:induction false} Settled<A>(x: Ctx, t: Tree, m: Arena<A>, root: Ptr, stop: Ptr, alg: Alg<A>)
    requires Pending(x, t, m, root, stop, alg) && m[t.ptr].aug == Compute(m, t.ptr, alg)
    ensures Right(Plug(x, t), m, alg)
  {
    ChildAug(t.left, m, alg);
    ChildAug(t.right, m, alg);
    PlugRight(x, t, m, alg);
  }

  /** Storing the computed summary moves the gap one node up. */
  lemma {:induction false} Stored<A>(x: Ctx, t: Tree, m: Arena<A>, m': Arena<A>, root: Ptr, stop: Ptr, alg: Alg<A>)
    requires Pending(x, t, m, root, stop, alg) && m' == m[t.ptr := m[t.ptr].(aug := Compute(m, t.ptr, alg))]
    ensures x.Top? ==> Right(Plug(x, t), m', alg)
    ensures x.Up? ==> Pending(x.up, Build(x.side, x.ptr, x.black, t, x.other), m', root, stop, alg)
  {
    ChildAug(t.left, m, alg);
    ChildAug(t.right, m, alg);
    FrameAugs(t.left, m, m', alg);
    FrameAugs(t.right, m, m', alg);
    assert Right(t, m', alg);
    if x.Up? {
      FrameLinksCtx(x, m, m', root, stop, t.ptr);
      FrameAugs(x.other, m, m', alg);
      FrameAugsCtx(x.up, m, m', alg, m[x.ptr].aug);
      LinkedCtxKeys(x, m, root, stop, t.ptr);
    }
  }

  // ---- a node with at most one child ----

  /** A node goes; its only subtree `k`, if any, takes its place and colour. */
  lemma {:induction false} SpliceLinks<A>(x: Ctx, s: Side, n: Ptr, c: bool, k: Tree, m: Arena<A>, m': Arena<A>,
      root: Ptr, root': Ptr, alg: Alg<A>)
    requires Parts(x, Build(s, n, c, Leaf, k), m, root, alg)
    requires if x.Up? then root' == root && x.ptr in m && x.ptr in m' && m'[x.ptr] == WithKid(m[x.ptr], x.side, Root(k))
        else root' == Root(k)
    requires k.Node? ==> k.ptr in m && k.ptr in m' && m'[k.ptr] == m[k.ptr].(parent := TopPtr(x, NULL), black := c)
    requires OnlyOn(m, m', {Root(k), TopPtr(x, NULL)})
    ensures Linked(Paint(k, c), m', TopPtr(x, NULL)) && LinkedCtx(x, m', root', NULL, Root(k))
      && Right(Paint(k, c), m', alg)
    ensures Distinct(Paint(k, c)) && CtxDistinct(x) && Ptrs(Paint(k, c)) !! CtxPtrs(x) && Law(alg)
    ensures x.Up? ==> Pending(x.up, Build(x.side, x.ptr, x.black, Paint(k, c), x.other), m', root', NULL, alg)
  {
    var t := Build(s, n, c, Leaf, k);
    PartsKeys(x, t, m, root, alg);
    BuildDistinct(s, n, c, Leaf, k);
    LinkedBuild(s, n, c, Leaf, k, m, TopPtr(x, NULL), alg);
    RootIn(k);
    var w := {Root(k), TopPtr(x, NULL)};
    SameFrom(m, m', w, Ptrs(k) - {Root(k)});
    if k.Node? { RootColour(k, m, n); }
    if x.Up? { LinkedTop(x, m, root, n); }
    Rehung(k, m, m', n, TopPtr(x, NULL), c, alg);
    PaintKeeps(k, c);
    SameFrom(m, m', w, CtxPtrs(x) - {TopPtr(x, NULL)});
    CtxFrame(x, m, m', root, root', NULL, n, Root(k), alg);
    if x.Up? {
      SplicePending(x, n, Paint(k, c), m, m', root, alg, m[n].aug);
    }
  }

  lemma {:induction false} SplicePending<A>(x: Ctx, n: Ptr, k: Tree, m: Arena<A>, m': Arena<A>, root: Ptr, alg: Alg<A>,
      a: A)
    requires x.Up? && RightCtx(x, m, alg, a) && x.ptr in m && x.ptr in m'
      && m'[x.ptr] == WithKid(m[x.ptr], x.side, Root(k))
    requires LinkedCtx(x, m', root, NULL, Root(k)) && Right(k, m', alg) && Distinct(k) && CtxDistinct(x)
      && Ptrs(k) !! CtxPtrs(x) && NULL !in Ptrs(k)
    requires Same(m, m', CtxPtrs(x) - {x.ptr})
    ensures Pending(x.up, Build(x.side, x.ptr, x.black, k, x.other), m', root, NULL, alg)
  {
    LinkedCtxKeys(x, m', root, NULL, Root(k));
    assert SameAugs(m, m', CtxPtrs(x.up)) && SameAugs(m, m', Ptrs(x.other));
    FrameAugs(x.other, m, m', alg);
    FrameAugsCtx(x.up, m, m', alg, m[x.ptr].aug);
  }

  lemma {:induction false} LinkedTop<A>(x: Ctx, m: Arena<A>, root: Ptr, child: Ptr)
    requires x.Up? && LinkedCtx(x, m, root, NULL, child)
    ensures x.ptr in CtxPtrs(x) && x.ptr != NULL && x.ptr in m
  {
  }

  // ---- a node with two children ----

  predicate AllLeft(x: Ctx) {
    x.Up? ==> x.side == L && AllLeft(x.up)
  }

  lemma {:induction false} LeftAhead(x: Ctx)
    requires AllLeft(x)
    ensures Ahead(x) == []
    decreases x
  {
    if x.Up? {
      LeftAhead(x.up);
    }
  }

  /** The subtree without its leftmost node, whose place `c2` takes. */
  function Without(y: Ctx, c2: Tree): Tree {
    Plug(y, Paint(c2, true))
  }

  /** The links once the leftmost node `sp` of the right subtree stands for `n`. */
  ghost predicate SwapsLinks<A>(x: Ctx, c: bool, l: Tree, y: Ctx, sp: Ptr, c2: Tree, m: Arena<A>, m': Arena<A>,
      root: Ptr, root': Ptr) {
    && sp in m' && LinkOf(m'[sp]) == Link(TopPtr(x, NULL), c, Root(l), if y.Up? then Last(y) else Root(c2))
    && (l.Node? ==> l.ptr in m && l.ptr in m' && LinkOf(m'[l.ptr]) == LinkOf(m[l.ptr]).(parent := sp))
    && (c2.Node? ==>
           c2.ptr in m && c2.ptr in m'
           && LinkOf(m'[c2.ptr]) == LinkOf(m[c2.ptr]).(parent := TopPtr(y, sp), black := true))
    && (y.Up? ==> y.ptr in m && y.ptr in m' && Last(y) in m && Last(y) in m')
    && (y.Up? && y.up.Top? ==> LinkOf(m'[y.ptr]) == LinkOf(WithKid(m[y.ptr], y.side, Root(c2))).(parent := sp))
    && (y.Up? && y.up.Up? ==>
           LinkOf(m'[y.ptr]) == LinkOf(WithKid(m[y.ptr], y.side, Root(c2)))
           && LinkOf(m'[Last(y)]) == LinkOf(m[Last(y)]).(parent := sp))
    && SameLinks(m, m', Ptrs(l) - {Root(l)}) && SameLinks(m, m', Ptrs(c2) - {Root(c2)})
    && (y.Up? ==> SameLinks(m, m', CtxPtrs(y) - {y.ptr, Last(y)})) && SameLinks(m, m', CtxPtrs(x) - {TopPtr(x, NULL)})
    && (if x.Up? then
          root' == root && x.ptr in m && x.ptr in m' && LinkOf(m'[x.ptr]) == LinkOf(WithKid(m[x.ptr], x.side, sp))
        else root' == sp)
  }

  /** The right subtree under the successor. */
  lemma {:induction false} SwapRight<A>(y: Ctx, n: Ptr, sp: Ptr, cs: bool, c2: Tree, m: Arena<A>, m': Arena<A>)
    requires var r := Plug(y, Node(sp, cs, Leaf, c2)); Linked(r, m, n) && Distinct(r)
    requires c2.Node? ==>
        c2.ptr in m && c2.ptr in m' && LinkOf(m'[c2.ptr]) == LinkOf(m[c2.ptr]).(parent := TopPtr(y, sp), black := true)
    requires y.Up? ==> y.ptr in m && y.ptr in m' && Last(y) in m && Last(y) in m'
    requires y.Up? && y.up.Top? ==> LinkOf(m'[y.ptr]) == LinkOf(WithKid(m[y.ptr], y.side, Root(c2))).(parent := sp)
    requires y.Up? && y.up.Up? ==>
        LinkOf(m'[y.ptr]) == LinkOf(WithKid(m[y.ptr], y.side, Root(c2)))
        && LinkOf(m'[Last(y)]) == LinkOf(m[Last(y)]).(parent := sp)
    requires SameLinks(m, m', Ptrs(c2) - {Root(c2)}) && (y.Up? ==> SameLinks(m, m', CtxPtrs(y) - {y.ptr, Last(y)}))
    ensures Linked(Without(y, c2), m', sp) && Root(Without(y, c2)) == if y.Up? then Last(y) else Root(c2)
  {
    var t := Node(sp, cs, Leaf, c2);
    PlugLinked(y, t, m, Root(Plug(y, t)), n);
    PlugDistinct(y, t);
    RehungLinks(c2, m, m', sp, TopPtr(y, sp), true);
    PaintKeeps(c2, true);
    if y.Up? {
      var v := m[Last(y) := m[Last(y)].(parent := sp)];
      PlugRoot(y, t);
      PlugRoot(y, Paint(c2, true));
      RebasedLinks(y, m, v, Last(y), n, sp, sp);
      if y.up.Up? { LastApart(y); }
      HoleLinks(y, v, m', Last(y), Last(y), sp, sp, Root(c2));
    }
    PlugLinked(y, Paint(c2, true), m', if y.Up? then Last(y) else Root(c2), sp);
  }

  lemma {:induction false} LastApart(y: Ctx)
    requires y.Up? && y.up.Up? && CtxDistinct(y)
    ensures Last(y) == Last(y.up) && Last(y) != y.ptr
  {
  }

  lemma {:induction false} SwapLinks<A>(x: Ctx, n: Ptr, c: bool, l: Tree, y: Ctx, sp: Ptr, cs: bool, c2: Tree,
      m: Arena<A>, m': Arena<A>, root: Ptr, root': Ptr)
    requires var t := Node(n, c, l, Plug(y, Node(sp, cs, Leaf, c2)));
             Linked(t, m, TopPtr(x, NULL)) && LinkedCtx(x, m, root, NULL, n) && Distinct(t) && CtxDistinct(x)
             && Ptrs(t) !! CtxPtrs(x)
    requires SwapsLinks(x, c, l, y, sp, c2, m, m', root, root')
    ensures Linked(Node(sp, c, l, Without(y, c2)), m', TopPtr(x, NULL)) && LinkedCtx(x, m', root', NULL, sp)
    ensures Distinct(Node(sp, c, l, Without(y, c2))) && Ptrs(Node(sp, c, l, Without(y, c2))) !! CtxPtrs(x)
  {
    var s := Node(sp, cs, Leaf, c2);
    PlugDistinct(y, s);
    PlugDistinct(y, Paint(c2, true));
    PaintKeeps(c2, true);
    PlugLinked(y, s, m, Root(Plug(y, s)), n);
    assert sp != NULL;
    SwapRight(y, n, sp, cs, c2, m, m');
    RehungLinks(l, m, m', n, sp, l.Node? && l.black);
    if l.Node? { RootColour(l, m, n); }
    Unpainted(l);
    HoleLinks(x, m, m', root, root', NULL, n, sp);
  }

  /** The leftmost node `sp` taken out of the right subtree of `n`, carrying the summary of `n`. */
  ghost predicate Detached<A>(y: Ctx, n: Ptr, sp: Ptr, c2: Tree, m: Arena<A>, m1: Arena<A>, alg: Alg<A>) {
    && m1.Keys == m.Keys && n in m && sp in m
    && LinkOf(m1[sp]) == (if y.Up? then LinkOf(m[sp]).(right := Last(y)) else LinkOf(m[sp])) && m1[sp].aug == m[n].aug
    && (y.Up? ==> y.ptr in m && Last(y) in m)
    && (y.Up? && y.up.Top? ==> LinkOf(m1[y.ptr]) == LinkOf(WithKid(m[y.ptr], y.side, Root(c2))).(parent := sp))
    && (y.Up? && y.up.Up? ==>
           LinkOf(m1[y.ptr]) == LinkOf(WithKid(m[y.ptr], y.side, Root(c2)))
           && LinkOf(m1[Last(y)]) == LinkOf(m[Last(y)]).(parent := sp))
    && (forall q :: q in m && q != sp && (y.Up? ==> q != y.ptr && q != Last(y)) ==> LinkOf(m1[q]) == LinkOf(m[q]))
    && SameAugs(m, m1, m.Keys - CtxPtrs(y) - {sp})
    && Right(Plug(y, c2), m1, alg)
  }

  /** The first writes of case 3. */
  ghost predicate Detaches<A>(y: Ctx, n: Ptr, sp: Ptr, c2: Tree, m: Arena<A>, m1: Arena<A>)
    requires y.Up?
  {
    && y.ptr in m && sp in m && n in m && Last(y) in m
    && var m0 := m[y.ptr := m[y.ptr].(left := Root(c2))];
       var m2 := m0[sp := m0[sp].(right := Last(y))];
       var m3 := m2[Last(y) := m2[Last(y)].(parent := sp)];
       m1 == m3[sp := m3[sp].(aug := m[n].aug)]
  }

  lemma {:induction false} DetachFacts<A>(y: Ctx, n: Ptr, sp: Ptr, c2: Tree, m: Arena<A>, m1: Arena<A>)
    requires y.Up? && Detaches(y, n, sp, c2, m, m1) && sp != Last(y) && sp != y.ptr && (y.up.Up? ==> Last(y) != y.ptr)
      && y.side == L
    ensures m1.Keys == m.Keys && m1[sp].aug == m[n].aug && LinkOf(m1[sp]) == LinkOf(m[sp]).(right := Last(y))
    ensures SameAugs(m, m1, m.Keys - {sp}) && SameLinks(m, m1, m.Keys - {sp, y.ptr, Last(y)})
    ensures LinkOf(m1[y.ptr])
        == LinkOf(WithKid(m[y.ptr], y.side, Root(c2))).(parent := if y.up.Top? then sp else m[y.ptr].parent)
    ensures y.up.Up? ==> LinkOf(m1[Last(y)]) == LinkOf(m[Last(y)]).(parent := sp)
  {
  }

  lemma {:induction false} DetachSets(y: Ctx, sp: Ptr, cs: bool, c2: Tree)
    requires y.Up? && Distinct(Plug(y, Node(sp, cs, Leaf, c2)))
    ensures var t := Node(y.ptr, y.black, c2, y.other);
            Distinct(t) && CtxDistinct(y.up) && Ptrs(t) !! CtxPtrs(y.up) && sp !in Ptrs(t) + CtxPtrs(y.up)
    ensures sp !in CtxPtrs(y) && sp != Last(y) && sp != y.ptr && (y.up.Up? ==> Last(y) == Last(y.up) != y.ptr)
      && CtxDistinct(y) && sp !in Ptrs(c2) && Ptrs(c2) !! CtxPtrs(y)
    ensures CtxPtrs(y) == {y.ptr} + Ptrs(y.other) + CtxPtrs(y.up) && Last(y) !in Ptrs(c2) + Ptrs(y.other)
      && (y.up.Up? ==> Last(y) in CtxPtrs(y.up))
  {
    PlugDistinct(y, Node(sp, cs, Leaf, c2));
    if y.up.Up? { LastApart(y); }
  }

  lemma {:induction false} DetachRights<A>(y: Ctx, n: Ptr, sp: Ptr, cs: bool, c2: Tree, m: Arena<A>, m1: Arena<A>,
      alg: Alg<A>)
    requires Right(Plug(y, Node(sp, cs, Leaf, c2)), m, alg) && Distinct(Plug(y, Node(sp, cs, Leaf, c2))) && y.Up?
      && y.ptr in m
    requires SameAugs(m, m1, m.Keys - {sp}) && m1.Keys == m.Keys
    ensures Right(c2, m1, alg) && Right(y.other, m1, alg) && RightCtx(y.up, m1, alg, m1[y.ptr].aug)
  {
    PlugRight(y, Node(sp, cs, Leaf, c2), m, alg);
    DetachSets(y, sp, cs, c2);
    hide Plug, Distinct;
    FrameAugs(c2, m, m1, alg);
    FrameAugs(y.other, m, m1, alg);
    FrameAugsCtx(y.up, m, m1, alg, m[y.ptr].aug);
  }

  lemma {:induction false} DetachLinks<A>(y: Ctx, n: Ptr, sp: Ptr, cs: bool, c2: Tree, m: Arena<A>, m1: Arena<A>)
    requires var r := Plug(y, Node(sp, cs, Leaf, c2)); Linked(r, m, n) && Distinct(r)
    requires y.Up? && y.side == L && y.ptr in m && sp in m && Last(y) in m && m1.Keys == m.Keys
      && SameLinks(m, m1, m.Keys - {sp, y.ptr, Last(y)})
    requires LinkOf(m1[y.ptr])
        == LinkOf(WithKid(m[y.ptr], y.side, Root(c2))).(parent := if y.up.Top? then sp else m[y.ptr].parent)
    requires y.up.Up? ==> LinkOf(m1[Last(y)]) == LinkOf(m[Last(y)]).(parent := sp)
    ensures y.ptr != NULL && LinkOf(m1[y.ptr]) == Link(TopPtr(y.up, sp), m1[y.ptr].black, Root(c2), Root(y.other))
      && LinkedCtx(y.up, m1, Last(y), sp, y.ptr)
    ensures NULL !in Ptrs(c2) + Ptrs(y.other)
  {
    var s := Node(sp, cs, Leaf, c2);
    PlugRoot(y, s);
    PlugLinked(y, s, m, Last(y), n);
    LinkedCtxKeys(y, m, Last(y), n, sp);
    LinkedKeys(s, m, TopPtr(y, n));
    DetachSets(y, sp, cs, c2);
    if y.up.Up? {
      RebasedLinks(y.up, m, m1, Last(y), n, sp, y.ptr);
    }
  }

  /** Then the summaries below are to be computed. */
  lemma {:induction false} DetachPending<A>(y: Ctx, n: Ptr, sp: Ptr, cs: bool, c2: Tree, m: Arena<A>, m1: Arena<A>,
      alg: Alg<A>)
    requires var r := Plug(y, Node(sp, cs, Leaf, c2)); Linked(r, m, n) && Distinct(r) && Right(r, m, alg)
    requires y.Up? && y.side == L && Detaches(y, n, sp, c2, m, m1)
    ensures Pending(y.up, Node(y.ptr, y.black, c2, y.other), m1, Last(y), sp, alg)
  {
    DetachSets(y, sp, cs, c2);
    DetachFacts(y, n, sp, c2, m, m1);
    DetachRights(y, n, sp, cs, c2, m, m1, alg);
    DetachLinks(y, n, sp, cs, c2, m, m1);
  }

  /** After they have been computed the subtree is detached. */
  lemma {:induction false} DetachDone<A>(y: Ctx, n: Ptr, sp: Ptr, cs: bool, c2: Tree, m: Arena<A>, m1: Arena<A>,
      m2: Arena<A>, alg: Alg<A>)
    requires Distinct(Plug(y, Node(sp, cs, Leaf, c2))) && y.Up? && y.side == L && Detaches(y, n, sp, c2, m, m1)
    requires Sums(m1, m2, CtxPtrs(y)) && Right(Plug(y, c2), m2, alg)
    ensures Detached(y, n, sp, c2, m, m2, alg)
  {
    DetachSets(y, sp, cs, c2);
    DetachFacts(y, n, sp, c2, m, m1);
    hide Plug, Distinct, CtxDistinct, CtxPtrs, Right, Ptrs;
    assert forall q :: q in m ==> LinkOf(m2[q]) == LinkOf(m1[q]);
    assert SameAugs(m, m2, m.Keys - CtxPtrs(y) - {sp});
    hide Detaches;
  }

  /** Everything after the successor has been put in the node's place, its own summary still to be computed. */
  lemma {:induction false} SwapPending<A>(x: Ctx, n: Ptr, c: bool, l: Tree, y: Ctx, sp: Ptr, cs: bool, c2: Tree,
      m: Arena<A>, m1: Arena<A>, m': Arena<A>, root: Ptr, root': Ptr, alg: Alg<A>)
    requires var t := Node(n, c, l, Plug(y, Node(sp, cs, Leaf, c2))); Parts(x, t, m, root, alg)
    requires Detached(y, n, sp, c2, m, m1, alg) && m'.Keys == m1.Keys && SameAugs(m1, m', m1.Keys)
    requires SwapsLinks(x, c, l, y, sp, c2, m, m', root, root')
    ensures var t' := Node(sp, c, l, Without(y, c2));
            && Pending(x, t', m', root', NULL, alg) && Linked(t', m', TopPtr(x, NULL))
               && LinkedCtx(x, m', root', NULL, sp)
            && Distinct(t') && CtxDistinct(x) && Ptrs(t') !! CtxPtrs(x) && Law(alg)
  {
    var t, t' := Node(n, c, l, Plug(y, Node(sp, cs, Leaf, c2))), Node(sp, c, l, Without(y, c2));
    PartsKeys(x, t, m, root, alg);
    SwapLinks(x, n, c, l, y, sp, cs, c2, m, m', root, root');
    SwapPtrs(y, sp, cs, c2);
    LinkedKeys(t', m', TopPtr(x, NULL));
    hide Plug, Detached, SwapsLinks;
    SwapAugs(x, n, c, l, y, sp, cs, c2, m, m1, m', root, alg);
    assert LinkOf(m'[sp]) == Link(TopPtr(x, NULL), m'[sp].black, Root(l), Root(Without(y, c2)));
  }

  lemma {:induction false} SwapPtrs(y: Ctx, sp: Ptr, cs: bool, c2: Tree)
    ensures Ptrs(Plug(y, Node(sp, cs, Leaf, c2))) == Ptrs(Without(y, c2)) + {sp}
    ensures Ptrs(Without(y, c2)) == CtxPtrs(y) + Ptrs(c2) == Ptrs(Plug(y, c2))
  {
    PlugDistinct(y, Node(sp, cs, Leaf, c2));
    PlugDistinct(y, Paint(c2, true));
    PlugDistinct(y, c2);
    PaintKeeps(c2, true);
  }

  lemma {:induction false} SwapAugs<A>(x: Ctx, n: Ptr, c: bool, l: Tree, y: Ctx, sp: Ptr, cs: bool, c2: Tree,
      m: Arena<A>, m1: Arena<A>, m': Arena<A>, root: Ptr, alg: Alg<A>)
    requires var t := Node(n, c, l, Plug(y, Node(sp, cs, Leaf, c2))); Parts(x, t, m, root, alg)
    requires Detached(y, n, sp, c2, m, m1, alg) && m'.Keys == m1.Keys && SameAugs(m1, m', m1.Keys)
    ensures Right(l, m', alg) && Right(Without(y, c2), m', alg) && RightCtx(x, m', alg, m'[sp].aug)
  {
    var r := Plug(y, Node(sp, cs, Leaf, c2));
    PartsKeys(x, Node(n, c, l, r), m, root, alg);
    SwapPtrs(y, sp, cs, c2);
    assert SameAugs(m, m', Ptrs(l)) && SameAugs(m, m', CtxPtrs(x));
    FrameAugs(l, m, m', alg);
    FrameAugsCtx(x, m, m', alg, m[n].aug);
    hide Linked, LinkedCtx;
    FrameAugs(Plug(y, c2), m1, m', alg);
    PaintRight(y, c2, m', alg);
  }

  lemma {:induction false} PaintRight<A>(y: Ctx, c2: Tree, m: Arena<A>, alg: Alg<A>)
    requires Right(Plug(y, c2), m, alg)
    ensures Right(Without(y, c2), m, alg)
  {
    PlugRight(y, c2, m, alg);
    PlugRight(y, Paint(c2, true), m, alg);
  }

  /** Once the summaries are computed, the parts make a whole again. */
  lemma {:induction false} Rejoined<A>(x: Ctx, t: Tree, m: Arena<A>, m': Arena<A>, w: set<Ptr>, root: Ptr, alg: Alg<A>)
    requires Linked(t, m, TopPtr(x, NULL)) && LinkedCtx(x, m, root, NULL, Root(t)) && Distinct(t) && CtxDistinct(x)
      && Ptrs(t) !! CtxPtrs(x) && Law(alg)
    requires Sums(m, m', w) && Right(Plug(x, t), m', alg)
    ensures Holds(Plug(x, t), m', root, alg)
  {
    SumsLinked(t, m, m', w, TopPtr(x, NULL));
    SumsLinkedCtx(x, m, m', w, root, NULL, Root(t));
    PlugLinked(x, t, m', root, NULL);
    PlugDistinct(x, t);
  }
}
