/** Augmented red-black trees: insertion and erasure in place. */
module RbTrees {
  import opened RbShape
  import opened RbLinks
  import opened RbSplice

  /** The context above the hole: the hole's top takes the exchanged subtree. */
  lemma {:induction false} PartsTop<A>(x: Ctx, t: Tree, m: Arena<A>, root: Ptr, alg: Alg<A>)
    requires Parts(x, t, m, root, alg) && t.Node?
    ensures t.ptr in m && t.ptr != NULL && m[t.ptr].parent == TopPtr(x, NULL) && m[t.ptr].black == t.black
    ensures m[t.ptr].left == Root(t.left) && m[t.ptr].right == Root(t.right)
    ensures x.Top? ==> root == t.ptr
    ensures x.Up? ==>
        x.ptr in m && x.ptr != NULL && KidOf(m[x.ptr], x.side) == t.ptr && x.ptr !in Ptrs(t) && x.ptr in CtxPtrs(x)
        && m[x.ptr].black == x.black
    ensures x.Up? ==>
        KidOf(m[x.ptr], Opp(x.side)) == Root(x.other) && Root(x.other) != t.ptr && m[x.ptr].parent == TopPtr(x.up, NULL)
    ensures t.ptr in Ptrs(t)
  {
    if x.Up? && x.other.Node? { RootColour(x.other, m, x.ptr); }
  }

  /** A step up: the node above the hole joins the subtree. */
  lemma {:induction false} PartsUp<A>(x: Ctx, t: Tree, m: Arena<A>, root: Ptr, alg: Alg<A>)
    requires x.Up?
    ensures Parts(x, t, m, root, alg) <==> Parts(x.up, Build(x.side, x.ptr, x.black, t, x.other), m, root, alg)
  {
    hide Parts, Holds;
    HoldsParts(x, t, m, root, alg);
    HoldsParts(x.up, Build(x.side, x.ptr, x.black, t, x.other), m, root, alg);
  }

  class RbTree<A(==)> {
    const alg: Alg<A>
    var nodes: Arena<A>
    var root: Ptr
    ghost var shape: Tree

    /** Links, root and summaries represent the shape. */
    ghost predicate Valid()
      reads this
    {
      Holds(shape, nodes, root, alg)
    }

    constructor (alg: Alg<A>)
      requires Law(alg)
      ensures Valid() && shape == Leaf && this.alg == alg
    {
      this.alg := alg;
      nodes, root, shape := map[], NULL, Leaf;
    }

    method ChangeChild(old_: Ptr, new_: Ptr, parent: Ptr)
      requires parent != NULL ==> parent in nodes
      modifies `nodes, `root
      ensures parent == NULL ==> root == new_ && nodes == old(nodes)
      ensures parent != NULL ==> root == old(root)
      ensures parent != NULL ==>
          nodes
            == old(nodes)[parent := WithKid(old(nodes)[parent], if old(nodes)[parent].left == old_ then L else R, new_)]
    {
      if parent != NULL {
        if nodes[parent].left == old_ {
          nodes := nodes[parent := nodes[parent].(left := new_)];
        } else {
          nodes := nodes[parent := nodes[parent].(right := new_)];
        }
      } else {
        root := new_;
      }
    }

    method SetParentColor(p: Ptr, parent: Ptr, black: bool)
      requires p in nodes
      modifies `nodes
      ensures nodes == old(nodes)[p := old(nodes)[p].(parent := parent, black := black)]
    {
      nodes := nodes[p := nodes[p].(parent := parent, black := black)];
    }

    method SetKid(p: Ptr, s: Side, k: Ptr)
      requires p in nodes
      modifies `nodes
      ensures nodes == old(nodes)[p := WithKid(old(nodes)[p], s, k)]
    {
      nodes := nodes[p := WithKid(nodes[p], s, k)];
    }

    /** The old node's parent and colour go to the new one, which becomes its parent. */
    method RotateSetParents(old_: Ptr, new_: Ptr, black: bool)
      requires old_ in nodes && new_ in nodes && old_ != new_
      requires nodes[old_].parent != NULL ==>
          nodes[old_].parent in nodes && nodes[old_].parent != old_ && nodes[old_].parent != new_
      modifies `nodes, `root
      ensures var m := old(nodes); var up := m[old_].parent;
              var m1 := m[new_ := m[new_].(parent := up, black := m[old_].black)]
                        [old_ := m[old_].(parent := new_, black := black)];
              && root == (if up == NULL then new_ else old(root))
              && nodes == if up == NULL then m1 else m1[up := WithKid(m[up], if m[up].left == old_ then L else R, new_)]
    {
      var parent := nodes[old_].parent;
      nodes := nodes[new_ := nodes[new_].(parent := nodes[old_].parent, black := nodes[old_].black)];
      SetParentColor(old_, new_, black);
      ChangeChild(old_, new_, parent);
    }

    /** The new node stands for what the old one stood for; the old one is computed afresh. */
    method AugmentRotate(old_: Ptr, new_: Ptr)
      requires old_ in nodes && new_ in nodes && old_ != new_
      modifies `nodes
      ensures old_ in nodes && nodes[old_] == old(nodes)[old_].(aug := nodes[old_].aug)
      ensures nodes == old(nodes)[new_ := old(nodes)[new_].(aug := old(nodes)[old_].aug)][old_ := nodes[old_]]
      ensures old(nodes)[old_].left != new_ && old(nodes)[old_].right != new_ ==>
          nodes[old_].aug == Compute(old(nodes), old_, alg)
    {
      nodes := nodes[new_ := nodes[new_].(aug := nodes[old_].aug)];
      nodes := nodes[old_ := nodes[old_].(aug := Compute(nodes, old_, alg))];
    }

    /** Case 1 of insertion: the red moves up from the parent and its sibling to their parent. */
    method FlipColors(tmp: Ptr, parent: Ptr, gparent: Ptr, ghost x: Ctx, ghost s: Side, ghost p: Tree, ghost u: Tree)
      requires Parts(x, Build(s, gparent, true, p, u), nodes, root, alg) && p.Node? && u.Node? && p.ptr == parent
        && u.ptr == tmp
      modifies `nodes
      ensures Parts(x, Build(s, gparent, false, Paint(p, true), Paint(u, true)), nodes, root, alg)
    {
      ghost var m := nodes;
      FlipFacts(x, s, gparent, true, p, u, m, root, alg);
      hide Parts, Linked, Distinct, Right, Ptrs, CtxPtrs, Same, Build, Paint;
      SetParentColor(tmp, gparent, true);
      SetParentColor(parent, gparent, true);
      SetParentColor(gparent, nodes[gparent].parent, false);
      Recoloured(x, s, gparent, true, false, p, true, u, true, m, nodes, root, alg);
    }

    /** The children of a rotation change hands. */
    method RotateKids(s: Side, old_: Ptr, new_: Ptr, tmp: Ptr, outer: Ptr, keep: bool)
      requires old_ in nodes && new_ in nodes && old_ != new_
      requires tmp != NULL ==> tmp in nodes && tmp !in {old_, new_, outer}
      requires outer != NULL ==> outer in nodes && outer !in {old_, new_, tmp}
      modifies `nodes
      ensures WroteKids(s, old_, new_, tmp, outer, keep, old(nodes), nodes)
    {
      hide WithKid, Opp;
      SetKid(old_, s, tmp);
      SetKid(new_, Opp(s), old_);
      if outer != NULL {
        SetParentColor(outer, new_, true);
      }
      if tmp != NULL {
        SetParentColor(tmp, old_, if keep then nodes[tmp].black else true);
      }
    }

    /** The node that a rotation lifts is hung up in the other's place, and the summaries follow. */
    method RotateUp(s: Side, old_: Ptr, new_: Ptr, black: bool)
      requires old_ in nodes && new_ in nodes && old_ != new_ && KidOf(nodes[old_], s) != new_
        && KidOf(nodes[old_], Opp(s)) != new_
      requires nodes[old_].parent != NULL ==>
          nodes[old_].parent in nodes && nodes[old_].parent != old_ && nodes[old_].parent != new_
      modifies `nodes, `root
      ensures WroteUp(old_, black, new_, old(nodes), nodes, old(root), root, alg)
    {
      hide WithKid, Opp, KidOf;
      EitherKid(nodes[old_], s, new_);
      ghost var m := nodes;
      RotateSetParents(old_, new_, black);
      if m[old_].parent != NULL { KidSet(m[m[old_].parent], if m[m[old_].parent].left == old_ then L else R, new_); }
      assert forall q :: q in m ==> nodes[q].aug == m[q].aug;
      assert Compute(nodes, old_, alg) == Compute(m, old_, alg);
      AugmentRotate(old_, new_);
    }

    /**
     * One rotation: `new_` takes the place of `old_`, whose child on side `s` it was, and `old_` gets `black` as its
     * colour. `tmp` moves over, painted black unless it is to keep its colour; `outer` is painted black on the way.
     * The arena may differ from `v`, which is in order, in what the rotation overwrites.
     */
    method RotateTop(s: Side, old_: Ptr, new_: Ptr, tmp: Ptr, outer: Ptr, keep: bool, black: bool,
                     ghost v: Arena<A>, ghost x: Ctx, ghost cg: bool, ghost cp: bool, ghost a: Tree, ghost b: Tree,
                     ghost u: Tree)
      requires Parts(x, Straight(s, old_, cg, new_, cp, a, b, u), v, root, alg) && Stale(nodes, v, s, old_, new_, outer)
      requires tmp == Root(b) && (keep || IsBlack(b)) && (outer == NULL || outer == Root(a))
      modifies `nodes, `root
      ensures Parts(x, Rotated(s, old_, black, new_, cg, Painted(a, outer), b, u), nodes, root, alg)
    {
      ghost var m, r := nodes, root;
      TopFacts(x, s, old_, cg, new_, cp, a, b, u, outer, m, v, r, alg);
      hide Parts, Stale, KidOf, WithKid, Opp, Compute, OnlyOn, Painted, Build, IsBlack, WroteKids, WroteUp;
      RotateKids(s, old_, new_, tmp, outer, keep);
      ghost var m1 := nodes;
      KidsWritten(s, old_, new_, tmp, outer, keep, m, m1, m[old_].parent);
      RotateUp(s, old_, new_, black);
      RotateDone(x, s, old_, cg, black, new_, cp, a, b, u, outer, keep, m, m1, nodes, v, r, root, alg);
    }

    /** Case 2 of insertion: a rotation at the parent, left unfinished for the rotation above it. */
    method TurnParent(s: Side, parent: Ptr, node: Ptr, ghost x: Ctx, ghost cp: bool, ghost a: Tree, ghost b: Tree,
        ghost c: Tree) returns (ghost v: Arena<A>)
      requires x.Up? && Parts(x, Straight(s, parent, cp, node, false, c, b, a), nodes, root, alg) && IsBlack(b) && !cp
      modifies `nodes
      ensures Parts(x, Rotated(s, parent, false, node, cp, c, b, a), v, root, alg)
        && Stale(nodes, v, x.side, x.ptr, node, NULL)
    {
      ghost var m := nodes;
      TurnFacts(x, s, parent, cp, node, false, c, b, a, m, root, alg);
      hide Parts, KidOf, WithKid, Opp, Compute, OnlyOn, Painted, Build, IsBlack, WroteKids, WroteUp, Stale;
      var tmp := KidOf(nodes[node], Opp(s));
      RotateKids(s, parent, node, tmp, NULL, false);
      ghost var m1 := nodes;
      KidsWritten(s, parent, node, tmp, NULL, false, m, m1, x.ptr);
      EitherKid(m1[parent], s, node);
      SetParentColor(parent, node, false);
      AugmentRotate(parent, node);
      v := nodes[node := nodes[node].(parent := x.ptr)][x.ptr := WithKid(nodes[x.ptr], x.side, node)];
      ParentTurned(m1, nodes, v, parent, node, x.ptr, x.side, root, alg);
      RotateWrites(x, s, parent, cp, false, node, false, c, b, a, NULL, false, m, m1, v, root, root, alg);
    }

    /** Case 3 of erasure: a rotation at the sibling, left unfinished for the rotation above it. */
    method TurnSibling(s: Side, sibling: Ptr, tmp2: Ptr, parent: Ptr, ghost x: Ctx, ghost a: Tree, ghost b: Tree,
        ghost c: Tree) returns (ghost v: Arena<A>)
      requires x.Up? && Parts(x, Straight(s, sibling, true, tmp2, false, c, b, a), nodes, root, alg) && IsBlack(b)
        && x.ptr == parent && x.side == Opp(s)
      modifies `nodes
      ensures Parts(x, Rotated(s, sibling, true, tmp2, true, c, b, a), v, root, alg)
        && Stale(nodes, v, x.side, parent, tmp2, sibling)
    {
      ghost var m := nodes;
      TurnFacts(x, s, sibling, true, tmp2, false, c, b, a, m, root, alg);
      hide Parts, KidOf, WithKid, Opp, Compute, OnlyOn, Painted, Build, IsBlack, WroteKids, WroteUp, Stale;
      var tmp1 := KidOf(nodes[tmp2], Opp(s));
      RotateKids(s, sibling, tmp2, tmp1, NULL, false);
      ghost var m1 := nodes;
      KidsWritten(s, sibling, tmp2, tmp1, NULL, false, m, m1, parent);
      EitherKid(m1[sibling], s, tmp2);
      SetKid(parent, Opp(s), tmp2);
      KidSet(m1[parent], Opp(s), tmp2);
      AugmentRotate(sibling, tmp2);
      v := nodes[tmp2 := nodes[tmp2].(parent := parent, black := true)]
                [sibling := nodes[sibling].(parent := tmp2, black := true)];
      SiblingTurned(m1, nodes, v, sibling, tmp2, parent, x.side, root, alg);
      RotateWrites(x, s, sibling, true, true, tmp2, false, c, b, a, NULL, false, m, m1, v, root, root, alg);
    }

    /** The fix-up below a red parent: it moves two levels up, or one or two rotations end it. */
    method InsertStep(node0: Ptr, parent0: Ptr, ghost x: Ctx, ghost t: Tree, ghost h: int) returns (done: bool,
        node: Ptr, ghost x': Ctx, ghost t': Tree, ghost h': int)
      requires Parts(x, t, nodes, root, alg) && RedFix(x, t, h) && t.ptr == node0 && x.Up? && !x.black
        && parent0 == x.ptr
      modifies `nodes, `root
      ensures Parts(x', t', nodes, root, alg) && InOrder(Plug(x', t')) == InOrder(Plug(x, t))
      ensures done ==> RedBlack(Plug(x', t'))
      ensures !done ==> RedFix(x', t', h') && t'.ptr == node && x.up.Up? && x' == x.up.up
    {
      InsertFacts(x, t, h, nodes, root, alg);
      hide *;
      node := node0;
      var parent := parent0;
      var gparent := nodes[parent].parent;
      var s := if parent != nodes[gparent].right then L else R;
      var tmp := KidOf(nodes[gparent], Opp(s));
      ghost var o, p, u := x.other, Build(x.side, parent, false, t, x.other), x.up.other;
      x', h' := x.up.up, h + 1;
      if tmp != NULL && !nodes[tmp].black {
        FlipColors(tmp, parent, gparent, x', s, p, u);
        Flipped(x, t, h);
        return false, gparent, x', Build(s, gparent, false, Paint(p, true), Paint(u, true)), h';
      }
      tmp := KidOf(nodes[parent], Opp(s));
      ghost var v, a, b := nodes, t, o;
      if node == tmp {
        InnerFacts(x, t, h, nodes, root, alg);
        v := TurnParent(Opp(s), parent, node, x.up, false, o, Near(t, s), Near(t, x.side));
        InnerTurned(x, t, h, v, root, alg);
        a, b := Build(s, parent, false, o, Near(t, s)), Near(t, x.side);
        parent := node;
        tmp := KidOf(nodes[node], Opp(s));
        BentTmp(nodes, v, s, gparent, node, NULL, b);
      } else {
        OuterFacts(x, t, h, nodes, root, alg);
      }
      RotateTop(s, gparent, parent, tmp, NULL, false, false, v, x', true, false, a, b, u);
      return true, node, x', Rotated(s, gparent, false, parent, true, a, b, u), h';
    }

    /** Rebalances after the red leaf `node0` has been hung in at the hole of `x0`. */
    method InsertColor(node0: Ptr, ghost x0: Ctx)
      requires Valid() && shape == Plug(x0, Node(node0, false, Leaf, Leaf)) && RedBlack(Plug(x0, Leaf))
      modifies `nodes, `root, `shape
      ensures Valid() && RedBlack(shape) && InOrder(shape) == old(InOrder(shape))
    {
      ghost var x, t := x0, Node(node0, false, Leaf, Leaf);
      ghost var h := Unplug(x0, Leaf);
      HoldsParts(x, t, nodes, root, alg);
      PartsTop(x, t, nodes, root, alg);
      assert RedFix(x, t, h);
      hide *;
      var node := node0;
      var parent := nodes[node].parent;
      while true
        invariant Parts(x, t, nodes, root, alg) && InOrder(Plug(x, t)) == old(InOrder(shape))
        invariant RedFix(x, t, h) && t.ptr == node && parent == TopPtr(x, NULL)
        decreases x
      {
        PartsTop(x, t, nodes, root, alg);
        RedFacts(x, t, h);
        if parent == NULL {
          RootFacts(x, t, nodes, root, alg);
          ghost var m := nodes;
          SetParentColor(node, NULL, true);
          RootPainted(t, h, m, nodes, root, alg);
          t := t.(black := true);
          break;
        } else if nodes[parent].black {
          Replug(x, t, h);
          break;
        }
        var done: bool;
        done, node, x, t, h := InsertStep(node, parent, x, t, h);
        if done {
          break;
        }
        PartsTop(x, t, nodes, root, alg);
        RedFacts(x, t, h);
        parent := nodes[node].parent;
      }
      HoldsParts(x, t, nodes, root, alg);
      shape := Plug(x, t);
    }

    /** Case 1 of erasure: a red sibling rotates up, and its black child becomes the sibling. */
    method RaiseSibling(s: Side, parent: Ptr, sibling0: Ptr, ghost x: Ctx, ghost t: Tree,
        ghost h: int) returns (sibling: Ptr, ghost x': Ctx)
      requires Parts(x, t, nodes, root, alg) && BlackShort(x, t, h) && x.side == s && x.ptr == parent
        && Root(x.other) == sibling0 && !IsBlack(x.other)
      modifies `nodes, `root
      ensures Parts(x', t, nodes, root, alg) && BlackShort(x', t, h) && InOrder(Plug(x', t)) == InOrder(Plug(x, t))
      ensures x'.side == s && x'.ptr == parent && Root(x'.other) == sibling && IsBlack(x'.other) && !x'.black
    {
      RaiseFacts(x, t, h, nodes, root, alg);
      ghost var sr, sl := Far(x.other, s), Near(x.other, s);
      x' := Up(s, parent, false, sl, Up(s, sibling0, true, sr, x.up));
      assert x'.side == s && x'.ptr == parent && x'.other == sl && !x'.black;
      hide *;
      var tmp1 := KidOf(nodes[sibling0], s);
      RotateTop(Opp(s), parent, sibling0, tmp1, NULL, false, false, nodes, x.up, true, false, sr, sl, t);
      Raised(x, t, h, nodes, root, alg);
      sibling := tmp1;
    }

    /** Cases 3 and 4 of erasure: a red nephew lets one or two rotations make up for the missing black node. */
    method BorrowBlack(s: Side, parent: Ptr, sibling0: Ptr, far: Ptr, ghost x: Ctx, ghost t: Tree,
        ghost h: int) returns (ghost t': Tree)
      requires Parts(x, t, nodes, root, alg) && BlackShort(x, t, h) && x.side == s && x.ptr == parent
        && Root(x.other) == sibling0 && IsBlack(x.other)
      requires x.other.Node? && far == Root(Far(x.other, s)) && !(IsBlack(Far(x.other, s)) && IsBlack(Near(x.other, s)))
      modifies `nodes, `root
      ensures Parts(x.up, t', nodes, root, alg) && RedBlack(Plug(x.up, t'))
        && InOrder(Plug(x.up, t')) == InOrder(Plug(x, t))
    {
      ShortFacts(x, t, h, nodes, root, alg);
      OppOpp(s);
      ghost var v, a, b := nodes, Far(x.other, s), Near(x.other, s);
      hide *;
      var sibling, tmp1 := sibling0, far;
      if tmp1 == NULL || nodes[tmp1].black {
        var tmp2 := KidOf(nodes[sibling], s);
        BentFacts(x, t, h, nodes, root, alg);
        ghost var n := b;
        v := TurnSibling(s, sibling, tmp2, parent, Across(x, t), a, Far(n, s), Near(n, s));
        BentTurned(x, t, h, v, root, alg);
        a, b := Build(s, sibling, true, Far(n, s), a), Near(n, s);
        tmp1 := sibling;
        sibling := tmp2;
        BentTmp(nodes, v, Opp(s), parent, sibling, tmp1, b);
      } else {
        LineFacts(x, t, h, nodes, root, alg);
      }
      var tmp2 := KidOf(nodes[sibling], s);
      RotateTop(Opp(s), parent, sibling, tmp2, tmp1, true, true, v, x.up, x.black, true, a, b, t);
      t' := Rotated(Opp(s), parent, true, sibling, x.black, Paint(a, true), b, t);
    }

    /** Makes up for the black node missing at the hole of `x0`, which is a leaf. */
    method EraseColor(parent0: Ptr, ghost x0: Ctx)
      requires Valid() && shape == Plug(x0, Leaf) && BlackShort(x0, Leaf, 0) && parent0 == x0.ptr
      modifies `nodes, `root, `shape
      ensures Valid() && RedBlack(shape) && InOrder(shape) == old(InOrder(shape))
    {
      ghost var x, t, h := x0, Leaf, 0;
      HoldsParts(x, t, nodes, root, alg);
      assert Root(Leaf) == NULL;
      hide *;
      var node, parent := NULL, parent0;
      while true
        invariant Parts(x, t, nodes, root, alg) && InOrder(Plug(x, t)) == old(InOrder(shape))
        invariant BlackShort(x, t, h) && x.Up? && parent == x.ptr && node == Root(t)
        decreases x
      {
        ghost var y := x;
        ShortFacts(x, t, h, nodes, root, alg);
        var s := if node != nodes[parent].right then L else R;
        var sibling := KidOf(nodes[parent], Opp(s));
        if !nodes[sibling].black {
          sibling, x := RaiseSibling(s, parent, sibling, x, t, h);
          ShortFacts(x, t, h, nodes, root, alg);
        }
        var tmp1, tmp2 := KidOf(nodes[sibling], Opp(s)), KidOf(nodes[sibling], s);
        if (tmp1 == NULL || nodes[tmp1].black) && (tmp2 == NULL || nodes[tmp2].black) {
          ghost var m := nodes;
          SetParentColor(sibling, parent, false);
          if !nodes[parent].black {
            SetParentColor(parent, nodes[parent].parent, true);
            PaidByParent(x, t, h, m, nodes, root, alg);
            x, t := x.up, Build(x.side, x.ptr, true, t, Paint(x.other, false));
          } else {
            PassedUp(x, t, h, m, nodes, root, alg);
            x, t, h := x.up, Build(x.side, x.ptr, true, t, Paint(x.other, false)), h + 1;
            node := parent;
            parent := nodes[node].parent;
            if parent != NULL {
              continue;
            }
          }
          break;
        }
        t := BorrowBlack(s, parent, sibling, tmp1, x, t, h);
        x := x.up;
        break;
      }
      HoldsParts(x, t, nodes, root, alg);
      shape := Plug(x, t);
    }

    /** Computes summaries from `rb0` up, until one does not change or `stop` is reached. */
    method Propagate(rb0: Ptr, stop: Ptr, ghost x0: Ctx, ghost t0: Tree, ghost r: Ptr)
      requires rb0 != stop ==> t0.Node? && Pending(x0, t0, nodes, r, stop, alg) && t0.ptr == rb0
      modifies `nodes
      ensures rb0 == stop ==> nodes == old(nodes)
      ensures rb0 != stop ==> Sums(old(nodes), nodes, {rb0} + CtxPtrs(x0)) && Right(Plug(x0, t0), nodes, alg)
    {
      hide Pending, Right, Plug;
      var rb := rb0;
      ghost var x, t := x0, t0;
      while rb != stop
        invariant rb0 != stop ==> Sums(old(nodes), nodes, {rb0} + CtxPtrs(x0))
        invariant rb0 == stop ==> rb == stop && nodes == old(nodes)
        invariant rb != stop ==>
            Pending(x, t, nodes, r, stop, alg) && t.Node? && t.ptr == rb && Plug(x, t) == Plug(x0, t0)
            && {rb} + CtxPtrs(x) <= {rb0} + CtxPtrs(x0)
        invariant rb0 != stop && rb == stop ==> Right(Plug(x0, t0), nodes, alg)
        decreases rb != stop, x
      {
        PendingFacts(x, t, nodes, r, stop, alg);
        var augmented := Compute(nodes, rb, alg);
        if nodes[rb].aug == augmented {
          Settled(x, t, nodes, r, stop, alg);
          break;
        }
        ghost var m := nodes;
        nodes := nodes[rb := nodes[rb].(aug := augmented)];
        Stored(x, t, m, nodes, r, stop, alg);
        rb := nodes[rb].parent;
        if x.Up? {
          PlugUp(x, t);
          BuildRoot(x.side, x.ptr, x.black, t, x.other);
          x, t := x.up, Build(x.side, x.ptr, x.black, t, x.other);
        }
      }
    }

    /** Hangs `child` up in place of `node`, with its colour; summaries above are still to be computed. */
    method SpliceOut(node: Ptr, child: Ptr, ghost x: Ctx, ghost s: Side, ghost c: bool,
        ghost k: Tree) returns (parent: Ptr, black: bool)
      requires Parts(x, Build(s, node, c, Leaf, k), nodes, root, alg) && child == Root(k)
      modifies `nodes, `root
      ensures Spliced(x, Paint(k, c), nodes, root, alg) && parent == TopPtr(x, NULL) && black == c
    {
      OneFacts(x, s, node, c, k, nodes, root, alg);
      ghost var m, r := nodes, root;
      hide Parts, Build, Paint, KidOf, WithKid, Pending, Linked, LinkedCtx, Right, Distinct, CtxDistinct, Ptrs, CtxPtrs,
        Law;
      parent, black := nodes[node].parent, nodes[node].black;
      ChangeChild(node, child, parent);
      if child != NULL {
        SetParentColor(child, parent, black);
      }
      SpliceLinks(x, s, node, c, k, m, nodes, r, root, alg);
      PaintRoot(k, c);
    }

    /** Erases a node with no child on the side `s`; `rebalance` tells where a black node is missing, if anywhere. */
    method EraseOne(node: Ptr, child: Ptr, ghost x: Ctx, ghost s: Side, ghost c: bool,
        ghost k: Tree) returns (rebalance: Ptr)
      requires Valid() && RedBlack(shape) && shape == Plug(x, Build(s, node, c, Leaf, k)) && child == Root(k)
      modifies `nodes, `root, `shape
      ensures Valid() && shape == Plug(x, Paint(k, c))
      ensures rebalance == NULL ==> RedBlack(shape)
      ensures rebalance != NULL ==> k == Leaf && x.Up? && BlackShort(x, Leaf, 0) && rebalance == x.ptr
    {
      HoldsParts(x, Build(s, node, c, Leaf, k), nodes, root, alg);
      OneFacts(x, s, node, c, k, nodes, root, alg);
      SpliceBalance(x, s, node, c, k);
      hide Parts, Holds, RedBlack, BlackShort, Build, Paint, Plug, Spliced;
      var parent, black := SpliceOut(node, child, x, s, c, k);
      if child != NULL {
        rebalance := NULL;
      } else {
        rebalance := if black then parent else NULL;
      }
      Summarise(parent, x, Paint(k, c));
      shape := Plug(x, Paint(k, c));
    }

    /** Computes the summaries above an exchanged subtree. */
    method Summarise(parent: Ptr, ghost x: Ctx, ghost t: Tree)
      requires Spliced(x, t, nodes, root, alg) && parent == TopPtr(x, NULL)
      modifies `nodes
      ensures Holds(Plug(x, t), nodes, root, alg)
    {
      ghost var m := nodes;
      SplicedFacts(x, t, nodes, root, alg);
      ghost var up, t' := if x.Up? then x.up else Top, if x.Up? then Build(x.side, x.ptr, x.black, t,
          x.other) else Leaf;
      if x.Up? { BuildRoot(x.side, x.ptr, x.black, t, x.other); PlugUp(x, t); }
      hide Build, Plug, Spliced, Pending, Linked, LinkedCtx, Right, Distinct, CtxDistinct, Ptrs, CtxPtrs, Law, Holds;
      Propagate(parent, NULL, up, t', root);
      if x.Top? { PlugTop(t); SumsSame(m); }
      Rejoined(x, t, m, nodes, if x.Up? then {parent} + CtxPtrs(up) else {}, root, alg);
    }

    /** The leftmost node of the subtree `r` of `n`, and its parent (or itself, when it is the root). */
    method FindSuccessor(child: Ptr, ghost n: Ptr, ghost r: Tree) returns (parent: Ptr, successor: Ptr, ghost y: Ctx,
        ghost cs: bool, ghost c2: Tree)
      requires r.Node? && child == r.ptr && Linked(r, nodes, n)
      ensures r == Plug(y, Node(successor, cs, Leaf, c2)) && AllLeft(y)
        && parent == (if y.Up? then y.ptr else successor) == TopPtr(y, successor) != NULL
    {
      ghost var s := r;
      y := Top;
      parent, successor := child, child;
      LeftFacts(y, s, r, nodes, n);
      var tmp := nodes[child].left;
      while tmp != NULL
        invariant s.Node? && s.ptr == successor && r == Plug(y, s) && AllLeft(y)
          && parent == (if y.Up? then y.ptr else successor)
        invariant parent != NULL && successor != NULL && successor in nodes
          && tmp == Root(s.left) == nodes[successor].left && (tmp != NULL <==> s.left.Node?)
        decreases s
      {
        y, s := Up(L, s.ptr, s.black, s.right, y), s.left;
        parent := successor;
        successor := tmp;
        LeftFacts(y, s, r, nodes, n);
        tmp := nodes[tmp].left;
      }
      cs, c2 := s.black, s.right;
    }

    /** Takes the successor out of the right subtree; it gets the summary of the node it is to stand for. */
    method Detach(node: Ptr, child: Ptr, parent: Ptr, successor: Ptr, ghost r: Tree, ghost y: Ctx, ghost cs: bool,
        ghost c2: Tree) returns (child2: Ptr)
      requires node in nodes && r == Plug(y, Node(successor, cs, Leaf, c2)) && AllLeft(y)
        && parent == (if y.Up? then y.ptr else successor)
      requires Linked(r, nodes, node) && Distinct(r) && Right(r, nodes, alg) && child == Root(r)
      modifies `nodes
      ensures Detached(y, node, successor, c2, old(nodes), nodes, alg) && child2 == Root(c2)
    {
      ghost var m := nodes;
      DetachReads(y, node, successor, cs, c2, m, alg);
      hide Linked, Distinct, Right, Plug, AllLeft, Pending, Detached;
      child2 := nodes[successor].right;
      if successor == child {
        nodes := nodes[successor := nodes[successor].(aug := nodes[node].aug)];
        DetachTop(node, successor, cs, c2, m, nodes, alg);
      } else {
        nodes := nodes[parent := nodes[parent].(left := child2)];
        nodes := nodes[successor := nodes[successor].(right := child)];
        nodes := nodes[child := nodes[child].(parent := successor)];
        nodes := nodes[successor := nodes[successor].(aug := nodes[node].aug)];
        ghost var m1 := nodes;
        DetachPending(y, node, successor, cs, c2, m, m1, alg);
        Propagate(parent, successor, y.up, Node(parent, y.black, c2, y.other), child);
        DetachDone(y, node, successor, cs, c2, m, m1, nodes, alg);
      }
    }

    /** Puts the successor in the place of the node. */
    method Seat(node: Ptr, successor: Ptr, parent: Ptr, child2: Ptr, ghost m: Arena<A>, ghost x: Ctx, ghost c: bool,
        ghost l: Tree, ghost y: Ctx, ghost cs: bool, ghost c2: Tree)
      returns (rebalance: Ptr)
      requires Parts(x, Node(node, c, l, Plug(y, Node(successor, cs, Leaf, c2))), m, root, alg)
        && Detached(y, node, successor, c2, m, nodes, alg) && l.Node?
      requires child2 == Root(c2) && parent == TopPtr(y, successor)
      modifies `nodes, `root
      ensures SwapsLinks(x, c, l, y, successor, c2, m, nodes, old(root), root)
      ensures nodes.Keys == old(nodes).Keys && SameAugs(old(nodes), nodes, old(nodes).Keys)
      ensures rebalance == if c2 == Leaf && cs then parent else NULL
    {
      ghost var m1, r := nodes, root;
      SeatFacts(x, node, c, l, y, successor, cs, c2, m, m1, root, alg);
      SeatParent(x, node, c, l, y, successor, cs, c2, m, m1, root, alg);
      hide Parts, Detached, SwapsLinks, LinkOf, KidOf, WithKid, Last, CtxPtrs, Ptrs;
      var tmp := nodes[node].left;
      nodes := nodes[successor := nodes[successor].(left := tmp)];
      nodes := nodes[tmp := nodes[tmp].(parent := successor)];
      var pcParent, pcBlack := nodes[node].parent, nodes[node].black;
      ghost var m2 := nodes;
      ChangeChild(node, successor, pcParent);
      ghost var m3 := nodes;
      if child2 != NULL {
        SetParentColor(successor, pcParent, pcBlack);
        SetParentColor(child2, parent, true);
        rebalance := NULL;
      } else {
        var pc2Black := nodes[successor].black;
        SetParentColor(successor, pcParent, pcBlack);
        rebalance := if pc2Black then parent else NULL;
      }
      SeatDone(x, node, c, l, y, successor, cs, c2, m, m1, m2, m3, nodes, r, root, alg);
    }

    /** The successor takes the place of a node; all summaries from it up are still to be computed. */
    method SwapIn(node: Ptr, child: Ptr, ghost x: Ctx, ghost c: bool, ghost l: Tree,
        ghost r: Tree) returns (successor: Ptr, rebalance: Ptr, ghost y: Ctx, ghost cs: bool, ghost c2: Tree)
      requires Parts(x, Node(node, c, l, r), nodes, root, alg) && l.Node? && r.Node? && child == r.ptr
      modifies `nodes, `root
      ensures r == Plug(y, Node(successor, cs, Leaf, c2)) && AllLeft(y)
      ensures Swapped(x, Node(successor, c, l, Without(y, c2)), nodes, root, alg)
      ensures rebalance == (if c2 == Leaf && cs then TopPtr(y, successor) else NULL) && TopPtr(y, successor) != NULL
    {
      TwoFacts(x, node, c, l, r, nodes, root, alg);
      hide Parts, Plug, Detached, SwapsLinks, Pending, Linked, Right, Distinct, AllLeft, SameAugs, Swapped;
      ghost var m, ro := nodes, root;
      var parent;
      parent, successor, y, cs, c2 := FindSuccessor(child, node, r);
      var child2 := Detach(node, child, parent, successor, r, y, cs, c2);
      ghost var m1 := nodes;
      rebalance := Seat(node, successor, parent, child2, m, x, c, l, y, cs, c2);
      SwapDone(x, node, c, l, y, successor, cs, c2, m, m1, nodes, ro, root, alg);
    }

    /** Computes the summaries from an exchanged subtree's own root up. */
    method SummariseAll(p: Ptr, ghost x: Ctx, ghost t: Tree)
      requires Swapped(x, t, nodes, root, alg) && p == Root(t)
      modifies `nodes
      ensures Holds(Plug(x, t), nodes, root, alg)
    {
      SwappedFacts(x, t, nodes, root, alg);
      hide Swapped, Pending, Plug, Holds, Linked, LinkedCtx, Right, Distinct, CtxDistinct, Ptrs, CtxPtrs, Law;
      ghost var m := nodes;
      Propagate(p, NULL, x, t, root);
      Rejoined(x, t, m, nodes, {p} + CtxPtrs(x), root, alg);
    }

    /** Erases a node with two children: its successor takes its place. */
    method EraseTwo(node: Ptr, child: Ptr, ghost x: Ctx, ghost c: bool, ghost l: Tree,
        ghost r: Tree) returns (rebalance: Ptr, ghost z: Ctx)
      requires Valid() && RedBlack(shape) && shape == Plug(x, Node(node, c, l, r)) && l.Node? && r.Node?
        && child == r.ptr
      modifies `nodes, `root, `shape
      ensures Valid() && InOrder(shape) == Ahead(x) + (InOrder(l) + InOrder(r)) + Behind(x)
      ensures rebalance == NULL ==> RedBlack(shape)
      ensures rebalance != NULL ==> shape == Plug(z, Leaf) && BlackShort(z, Leaf, 0) && rebalance == z.ptr
    {
      HoldsParts(x, Node(node, c, l, r), nodes, root, alg);
      hide Parts, Holds, RedBlack, BlackShort, Plug, Swapped, AllLeft, InOrder;
      ghost var y, cs, c2;
      var successor;
      successor, rebalance, y, cs, c2 := SwapIn(node, child, x, c, l, r);
      SummariseAll(successor, x, Node(successor, c, l, Without(y, c2)));
      shape := Plug(x, Node(successor, c, l, Without(y, c2)));
      z := Within(y, Up(R, successor, c, l, x));
      SwapOrder(x, node, c, l, y, successor, cs, c2);
      SwapBalance(x, node, c, l, y, successor, cs, c2);
    }

    /** Takes a node out of the tree; `rebalance` tells where a black node is missing, if anywhere. */
    method EraseAugmented(node: Ptr, ghost x: Ctx, ghost c: bool, ghost l: Tree, ghost r: Tree) returns (rebalance: Ptr,
        ghost z: Ctx)
      requires Valid() && RedBlack(shape) && shape == Plug(x, Node(node, c, l, r))
      modifies `nodes, `root, `shape
      ensures Valid() && InOrder(shape) == Ahead(x) + (InOrder(l) + InOrder(r)) + Behind(x)
      ensures rebalance == NULL ==> RedBlack(shape)
      ensures rebalance != NULL ==> shape == Plug(z, Leaf) && BlackShort(z, Leaf, 0) && rebalance == z.ptr
    {
      HoldsParts(x, Node(node, c, l, r), nodes, root, alg);
      ChildFacts(x, node, c, l, r, nodes, root, alg);
      hide Parts, Holds, RedBlack, BlackShort, Plug, InOrder;
      z := x;
      var child, tmp := nodes[node].right, nodes[node].left;
      if tmp == NULL {
        assert Node(node, c, l, r) == Build(L, node, c, Leaf, r);
        rebalance := EraseOne(node, child, x, L, c, r);
        SpliceOrder(x, r, c, l, r);
      } else if child == NULL {
        assert Node(node, c, l, r) == Build(R, node, c, Leaf, l);
        rebalance := EraseOne(node, tmp, x, R, c, l);
        SpliceOrder(x, l, c, l, r);
      } else {
        rebalance, z := EraseTwo(node, child, x, c, l, r);
      }
    }

    /** Erases a node: exactly it leaves the sequence, and the tree is a red-black tree again. */
    method Erase(node: Ptr, ghost i: nat)
      requires Valid() && RedBlack(shape) && i < |InOrder(shape)| && InOrder(shape)[i] == node
      modifies `nodes, `root, `shape
      ensures Valid() && RedBlack(shape)
      ensures InOrder(shape) == old(InOrder(shape))[..i] + old(InOrder(shape))[i + 1..]
      ensures node !in InOrder(shape) && Ptrs(shape) == old(Ptrs(shape)) - {node}
    {
      assert Distinct(shape);
      hide Holds, RedBlack, BlackShort, Plug, InOrder, Ptrs, Distinct, CtxDistinct;
      ghost var x, c, l, r := Locate(shape, i);
      ErasedOrder(x, node, c, l, r);
      ErasedPtrs(x, node, c, l, r);
      var rebalance;
      ghost var z;
      rebalance, z := EraseAugmented(node, x, c, l, r);
      if rebalance != NULL {
        EraseColor(rebalance, z);
      }
      PtrsWithout(old(shape), shape, node, Ahead(x) + (InOrder(l) + InOrder(r)) + Behind(x));
    }

    /** rb_link_node: hangs a red leaf in below `parent`; its summary `aug` is what the client has stored in it. */
    method LinkNode(node: Ptr, parent: Ptr, side: Side, aug: A, ghost x: Ctx)
      requires Valid() && shape == Plug(x, Leaf) && node != NULL && node !in Ptrs(shape) && parent == TopPtr(x, NULL)
        && (x.Up? ==> side == x.side)
      modifies `nodes, `root
      ensures nodes.Keys == old(nodes).Keys + {node} && nodes[node] == RbNode(parent, false, NULL, NULL, aug)
      ensures forall p :: p in old(nodes) && p != node && p != parent ==> nodes[p] == old(nodes)[p]
      ensures aug == alg.unit ==> Swapped(x, Node(node, false, Leaf, Leaf), nodes, root, alg)
    {
      LinkReads(x, node, nodes, root, alg);
      ghost var m, r := nodes, root;
      hide Swapped, Plug, Holds, Parts;
      nodes := nodes[node := RbNode(parent, false, NULL, NULL, aug)];
      if parent == NULL {
        root := node;
      } else {
        SetKid(parent, side, node);
      }
      if aug == alg.unit { LinkWritten(x, node, m, nodes, r, root, alg); }
    }

    /**
     * A client's insertion below `parent`: link, bring the summaries up to date, rebalance. The client has given the
     * new node the summary of an empty subtree: it is not counted yet.
     */
    method Insert(node: Ptr, parent: Ptr, side: Side, aug: A, ghost i: nat)
      requires aug == alg.unit
      requires Valid() && RedBlack(shape) && node != NULL && node !in Ptrs(shape)
      requires parent == NULL ==> shape == Leaf && i == 0
      requires parent != NULL ==> parent in nodes && KidOf(nodes[parent], side) == NULL
      requires parent != NULL && side == L ==> i < |InOrder(shape)| && InOrder(shape)[i] == parent
      requires parent != NULL && side == R ==> 0 < i <= |InOrder(shape)| && InOrder(shape)[i - 1] == parent
      modifies `nodes, `root, `shape
      ensures Valid() && RedBlack(shape)
      ensures InOrder(shape) == old(InOrder(shape))[..i] + [node] + old(InOrder(shape))[i..]
    {
      ghost var x := Top;
      if parent != NULL {
        x := LocateHole(shape, nodes, root, alg, parent, side, i);
      }
      ghost var t := Node(node, false, Leaf, Leaf);
      InsertedOrder(x, node, i);
      hide Holds, RedBlack, Plug, InOrder, Ptrs, Swapped;
      LinkNode(node, parent, side, aug, x);
      SummariseAll(node, x, t);
      shape := Plug(x, t);
      InsertColor(node, x);
    }

    /** The first node in order, or with `s == R` the last. */
    method Extreme(s: Side) returns (n: Ptr)
      requires Valid()
      ensures n == if shape == Leaf then NULL else if s == L then InOrder(shape)[0]
          else InOrder(shape)[|InOrder(shape)| - 1]
    {
      n := root;
      if n == NULL {
        LinkedKeys(shape, nodes, NULL);
        RootIn(shape);
        return NULL;
      }
      n := Outermost(n, s, NULL, shape);
    }

    /** Down to the outermost node of a subtree. */
    method Outermost(n0: Ptr, s: Side, ghost parent: Ptr, ghost t0: Tree) returns (n: Ptr)
      requires t0.Node? && t0.ptr == n0 && Linked(t0, nodes, parent)
      ensures InOrder(t0) != [] && n == (if s == L then InOrder(t0)[0] else InOrder(t0)[|InOrder(t0)| - 1]) && n != NULL
    {
      n := n0;
      ghost var t, up := t0, parent;
      while KidOf(nodes[n], s) != NULL
        invariant t.Node? && t.ptr == n && Linked(t, nodes, up) && InOrder(t0) != [] && InOrder(t) != []
        invariant if s == L then InOrder(t0)[0] == InOrder(t)[0]
            else InOrder(t0)[|InOrder(t0)| - 1] == InOrder(t)[|InOrder(t)| - 1]
        decreases t
      {
        up := n;
        n := KidOf(nodes[n], s);
        t := Near(t, s);
        assert InOrder(t) != [];
      }
    }

    /** rb_next, or with `s == L` rb_prev: the neighbour in order of the node at position `i`. */
    method Beside(node0: Ptr, s: Side, ghost i: nat) returns (n: Ptr)
      requires Valid() && i < |InOrder(shape)| && InOrder(shape)[i] == node0
      ensures n == Neighbour(InOrder(shape), i, s)
    {
      ghost var x, c, l, r := Locate(shape, i);
      ghost var t := Node(node0, c, l, r);
      HoldsParts(x, t, nodes, root, alg);
      PartsTop(x, t, nodes, root, alg);
      var node := node0;
      if nodes[node].parent == node {
        PartsKeys(x, t, nodes, root, alg);
        assert false;
      }
      var k := KidOf(nodes[node], s);
      if k != NULL {
        n := Outermost(k, Opp(s), node, Near(t, s));
        Inside(x, t, i, s);
        return;
      }
      AtEdge(x, t, i, s, nodes, root, alg);
      hide Parts, Plug, Holds, InOrder, EdgeAt;
      var parent := nodes[node].parent;
      while parent != NULL && node == KidOf(nodes[parent], s)
        invariant shape == Plug(x, t) && Parts(x, t, nodes, root, alg) && t.Node? && t.ptr == node
          && parent == TopPtr(x, NULL) && EdgeAt(x, t, i, s)
        invariant parent != NULL ==> parent in nodes
        decreases x
      {
        ClimbFacts(x, t, i, s, nodes, root, alg);
        BuildRoot(x.side, x.ptr, x.black, t, x.other);
        x, t := x.up, Build(x.side, x.ptr, x.black, t, x.other);
        node := parent;
        PartsTop(x, t, nodes, root, alg);
        parent := nodes[node].parent;
      }
      ClimbEnd(x, t, i, s, nodes, root, alg);
      n := parent;
    }

    /** Enumerates the nodes: each once, in order. */
    method Enumerate() returns (out: seq<Ptr>)
      requires Valid()
      ensures out == InOrder(shape)
    {
      LinkedKeys(shape, nodes, NULL);
      PtrsInOrder(shape);
      var n := Extreme(L);
      out := [];
      while n != NULL
        invariant |out| <= |InOrder(shape)| && out == InOrder(shape)[..|out|]
        invariant if n == NULL then |out| == |InOrder(shape)|
            else |out| < |InOrder(shape)| && n == InOrder(shape)[|out|]
        decreases |InOrder(shape)| - |out|
      {
        var next := Beside(n, R, |out|);
        out := out + [n];
        n := next;
        if |out| < |InOrder(shape)| { assert InOrder(shape)[|out|] in InOrder(shape); }
      }
    }

    /** rb_replace_node: `new_` takes over the links of the victim; summaries are left to the caller. */
    method ReplaceNode(victim: Ptr, new_: Ptr, ghost i: nat)
      requires Valid() && RedBlack(shape) && i < |InOrder(shape)| && InOrder(shape)[i] == victim && new_ != NULL
        && new_ !in Ptrs(shape) && new_ in nodes
      modifies `nodes, `root, `shape
      ensures Linked(shape, nodes, NULL) && root == Root(shape) && Distinct(shape) && RedBlack(shape)
      ensures InOrder(shape) == old(InOrder(shape))[i := new_]
      ensures shape == Exchanged(old(shape), victim, new_)
      ensures forall q :: q in nodes ==> q in old(nodes) && nodes[q].aug == old(nodes)[q].aug
    {
      ghost var x, c, l, r := Locate(shape, i);
      HoldsParts(x, Node(victim, c, l, r), nodes, root, alg);
      ghost var m, ro := nodes, root;
      ReplaceReads(x, victim, new_, c, l, r, m, root, alg);
      hide Parts, Holds, Plug, Linked, Distinct, RedBlack, InOrder, Ptrs;
      var parent := nodes[victim].parent;
      ChangeChild(victim, new_, parent);
      ghost var m1 := nodes;
      if nodes[victim].left != NULL {
        var k := nodes[victim].left;
        nodes := nodes[k := nodes[k].(parent := new_)];
      }
      ghost var m2 := nodes;
      if nodes[victim].right != NULL {
        var k := nodes[victim].right;
        nodes := nodes[k := nodes[k].(parent := new_)];
      }
      ghost var m3 := nodes;
      nodes := nodes[new_ := nodes[victim].(aug := nodes[new_].aug)];
      ReplaceWritten(x, victim, new_, l, r, m, m1, m2, m3, nodes);
      hide ReplaceLinks;
      Replaced(x, victim, new_, c, l, r, i, m, nodes, ro, root, alg);
      ExchangedAt(x, victim, new_, c, l, r);
      shape := Plug(x, Node(new_, c, l, r));
    }
  }

  /** The tree with the node `p` in the place of `n`: its shape and its colours are those of `t`. */
  function Exchanged(t: Tree, n: Ptr, p: Ptr): Tree {
    match t
    case Leaf => Leaf
    case Node(q, c, l, r) => Node(if q == n then p else q, c, Exchanged(l, n, p), Exchanged(r, n, p))
  }

  lemma {:induction false} ExchangedNone(t: Tree, n: Ptr, p: Ptr)
    requires n !in Ptrs(t)
    ensures Exchanged(t, n, p) == t
  {
    match t
    case Leaf =>
    case Node(q, c, l, r) =>
      ExchangedNone(l, n, p);
      ExchangedNone(r, n, p);
  }

  lemma {:induction false} ExchangedPlug(x: Ctx, t: Tree, n: Ptr, p: Ptr)
    requires n !in CtxPtrs(x)
    ensures Exchanged(Plug(x, t), n, p) == Plug(x, Exchanged(t, n, p))
    decreases x
  {
    match x
    case Top =>
    case Up(s, q, c, o, up) =>
      ExchangedPlug(up, Build(s, q, c, t, o), n, p);
      ExchangedNone(o, n, p);
  }

  lemma {:induction false} ExchangedAt(x: Ctx, n: Ptr, p: Ptr, c: bool, l: Tree, r: Tree)
    requires Distinct(Plug(x, Node(n, c, l, r)))
    ensures Plug(x, Node(p, c, l, r)) == Exchanged(Plug(x, Node(n, c, l, r)), n, p)
  {
    PlugDistinct(x, Node(n, c, l, r));
    ExchangedPlug(x, Node(n, c, l, r), n, p);
    ExchangedNone(l, n, p);
    ExchangedNone(r, n, p);
  }

  /** The state of the erasure fix-up: paths through the hole are one black node short. */
  ghost predicate BlackShort(x: Ctx, t: Tree, h: int) {
    x.Up? && IsBlack(t) && RedOk(t) && Bal(t, h) && CtxBal(x, h + 1) && CtxRed(x)
  }

  /** What the erasure fix-up reads. */
  lemma {:induction false} ShortFacts<A>(x: Ctx, t: Tree, h: int, m: Arena<A>, root: Ptr, alg: Alg<A>)
    requires Parts(x, t, m, root, alg) && BlackShort(x, t, h)
    ensures x.Up? && x.other.Node? && x.ptr in m && x.ptr != NULL
      && (if Root(t) != m[x.ptr].right then L else R) == x.side
    ensures KidOf(m[x.ptr], Opp(x.side)) == Root(x.other) == x.other.ptr && m[x.ptr].black == x.black
      && m[x.ptr].parent == TopPtr(x.up, NULL)
    ensures var k := x.other.ptr; k in m && k != x.ptr && m[k].black == x.other.black && m[k].parent == x.ptr
    ensures var n := Near(x.other, x.side);
            KidOf(m[x.other.ptr], x.side) == Root(n) && (Root(n) != NULL <==> n.Node?)
            && (n.Node? ==> Root(n) in m && m[Root(n)].black == n.black)
    ensures var n := Far(x.other, x.side);
            KidOf(m[x.other.ptr], Opp(x.side)) == Root(n) && (Root(n) != NULL <==> n.Node?)
            && (n.Node? ==> Root(n) in m && m[Root(n)].black == n.black)
    ensures x.other.black <==> IsBlack(x.other)
    ensures var n := Near(x.other, x.side); IsBlack(n) <==> (n.Node? ==> n.black)
    ensures var n := Far(x.other, x.side); IsBlack(n) <==> (n.Node? ==> n.black)
  {
    BalPositive(t, h);
    BalPositive(x.other, h + 1);
    PartsUp(x, t, m, root, alg);
    FlipFacts(x.up, x.side, x.ptr, x.black, t, x.other, m, root, alg);
    var k := x.other;
    Rebuild(k, x.side);
    PartsUp(Up(Opp(x.side), x.ptr, x.black, t, x.up), k, m, root, alg);
    FlipFacts(Up(Opp(x.side), x.ptr, x.black, t, x.up), x.side, k.ptr, k.black, Near(k, x.side), Far(k, x.side), m,
          root, alg);
    hide Parts;
    WhichSide(m[x.ptr], x.side, Root(t));
  }

  /** The context of the sibling. */
  function Across(x: Ctx, t: Tree): Ctx
    requires x.Up?
  {
    Up(Opp(x.side), x.ptr, x.black, t, x.up)
  }

  /** The sibling seen from the parent. */
  lemma {:induction false} PartsAcross<A>(x: Ctx, t: Tree, m: Arena<A>, root: Ptr, alg: Alg<A>)
    requires x.Up?
    ensures Parts(x, t, m, root, alg) <==> Parts(Across(x, t), x.other, m, root, alg)
    ensures Parts(x, t, m, root, alg) <==> Parts(x.up, Build(Opp(x.side), x.ptr, x.black, x.other, t), m, root, alg)
  {
    hide Parts;
    PartsUp(x, t, m, root, alg);
    PartsUp(Across(x, t), x.other, m, root, alg);
  }

  lemma {:induction false} ShortBalance(x: Ctx, t: Tree, h: int)
    requires BlackShort(x, t, h)
    ensures h >= 0 && Bal(t, h) && RedOk(t) && IsBlack(t) && x.Up? && x.other.Node?
    ensures Bal(x.other, h + 1) && RedOk(x.other) && CtxBal(x.up, h + 1 + Count(x.black)) && CtxRed(x.up)
    ensures !x.black ==> IsBlack(x.other) && TakesRed(x.up)
    ensures var c := Count(x.other.black); Bal(x.other.left, h + 1 - c) && Bal(x.other.right, h + 1 - c)
    ensures RedOk(x.other.left) && RedOk(x.other.right)
      && (!x.other.black ==> IsBlack(x.other.left) && IsBlack(x.other.right))
  {
    BalPositive(t, h);
    BalPositive(x.other, h + 1);
  }

  lemma {:induction false} RaiseFacts<A>(x: Ctx, t: Tree, h: int, m: Arena<A>, root: Ptr, alg: Alg<A>)
    requires Parts(x, t, m, root, alg) && BlackShort(x, t, h) && !IsBlack(x.other)
    ensures x.other.Node? && x.other.ptr in m && Root(x.other) == x.other.ptr && x.black
    ensures var s, k := x.side, x.other;
            && Parts(x.up, Straight(Opp(s), x.ptr, true, k.ptr, false, Far(k, s), Near(k, s), t), m, root, alg)
            && Stale(m, m, Opp(s), x.ptr, k.ptr, NULL) && IsBlack(Near(k, s)) && KidOf(m[k.ptr], s) == Root(Near(k, s))
  {
    var s, k := x.side, x.other;
    ShortBalance(x, t, h);
    ShortFacts(x, t, h, m, root, alg);
    PartsAcross(x, t, m, root, alg);
    hide Parts;
    Rebuild(k, Opp(s));
    OppOpp(s);
    NotStale(m, Opp(s), x.ptr, k.ptr, NULL);
  }

  /** The context of the hole once the red sibling has gone up and the parent down. */
  function RaisedCtx(x: Ctx): Ctx
    requires x.Up? && x.other.Node?
  {
    Up(x.side, x.ptr, false, Near(x.other, x.side), Up(x.side, x.other.ptr, true, Far(x.other, x.side), x.up))
  }

  lemma {:induction false} RaisedLinks<A>(x: Ctx, t: Tree, m: Arena<A>, root: Ptr, alg: Alg<A>)
    requires x.Up? && x.other.Node?
    requires Parts(x.up, Rotated(Opp(x.side), x.ptr, false, x.other.ptr, true, Far(x.other, x.side),
                                 Near(x.other, x.side), t), m, root, alg)
    ensures Parts(RaisedCtx(x), t, m, root, alg)
  {
    var s, k := x.side, x.other;
    var q := RaisedCtx(x).up;
    assert Rotated(Opp(s), x.ptr, false, k.ptr, true, Far(k, s), Near(k, s), t)
        == Build(s, k.ptr, true, Build(s, x.ptr, false, t, Near(k, s)), Far(k, s));
    hide Parts, Near, Build;
    PartsUp(q, Build(s, x.ptr, false, t, Near(k, s)), m, root, alg);
    PartsUp(RaisedCtx(x), t, m, root, alg);
  }

  lemma {:induction false} RaisedBalance(x: Ctx, t: Tree, h: int)
    requires BlackShort(x, t, h) && !IsBlack(x.other) && x.other.Node?
    ensures BlackShort(RaisedCtx(x), t, h) && IsBlack(Near(x.other, x.side))
  {
    var q := RaisedCtx(x).up;
    ShortBalance(x, t, h);
    assert CtxBal(q, h + 1) && CtxRed(q);
  }

  lemma {:induction false} RaisedSequence(x: Ctx, t: Tree)
    requires x.Up? && x.black && x.other.Node? && !x.other.black
    ensures InOrder(Plug(RaisedCtx(x), t)) == InOrder(Plug(x, t))
  {
    var s, k := x.side, x.other;
    var r := Rotated(Opp(s), x.ptr, false, k.ptr, true, Far(k, s), Near(k, s), t);
    assert Plug(RaisedCtx(x), t) == Plug(x.up, r);
    Rebuild(k, Opp(s));
    OppOpp(s);
    assert Plug(x, t) == Plug(x.up, Build(s, x.ptr, true, t, k));
    assert Build(s, x.ptr, true, t, k) == Straight(Opp(s), x.ptr, true, k.ptr, false, Far(k, s), Near(k, s), t);
    hide Plug, InOrder, Near;
    RotatedOrder(Opp(s), x.ptr, true, k.ptr, false, false, true, Far(k, s), Near(k, s), t);
    SameOrder(x.up, Straight(Opp(s), x.ptr, true, k.ptr, false, Far(k, s), Near(k, s), t), r);
  }

  lemma {:induction false} Raised<A>(x: Ctx, t: Tree, h: int, m: Arena<A>, root: Ptr, alg: Alg<A>)
    requires BlackShort(x, t, h) && !IsBlack(x.other) && x.other.Node?
    requires Parts(x.up, Rotated(Opp(x.side), x.ptr, false, x.other.ptr, true, Far(x.other, x.side),
                                 Near(x.other, x.side), t), m, root, alg)
    ensures var s, k := x.side, x.other; var x' := Up(s, x.ptr, false, Near(k, s), Up(s, k.ptr, true, Far(k, s), x.up));
            && Parts(x', t, m, root, alg) && BlackShort(x', t, h) && IsBlack(Near(k, s))
            && InOrder(Plug(x', t)) == InOrder(Plug(x, t))
  {
    ShortBalance(x, t, h);
    assert x.black && !x.other.black;
    hide Parts, BlackShort, Plug, InOrder, Near, Build, Bal, RedOk, CtxBal, CtxRed;
    RaisedLinks(x, t, m, root, alg);
    RaisedBalance(x, t, h);
    RaisedSequence(x, t);
  }

  /** A parent that was red pays with its colour. */
  lemma {:induction false} PaidByParent<A>(x: Ctx, t: Tree, h: int, m: Arena<A>, m': Arena<A>, root: Ptr, alg: Alg<A>)
    requires Parts(x, t, m, root, alg) && BlackShort(x, t, h) && !x.black && x.other.Node?
      && IsBlack(Near(x.other, x.side)) && IsBlack(Far(x.other, x.side))
    requires x.ptr in m && x.other.ptr in m && x.ptr != x.other.ptr && m[x.other.ptr].parent == x.ptr
    requires m' == m[x.other.ptr := m[x.other.ptr].(parent := x.ptr, black := false)]
                     [x.ptr := m[x.ptr].(parent := m[x.ptr].parent, black := true)]
    ensures var t' := Build(x.side, x.ptr, true, t, Paint(x.other, false));
            Parts(x.up, t', m', root, alg) && RedBlack(Plug(x.up, t')) && InOrder(Plug(x.up, t')) == InOrder(Plug(x, t))
  {
    var t' := Build(x.side, x.ptr, true, t, Paint(x.other, false));
    ShortBalance(x, t, h);
    SiblingPainted(x, t, m, m', root, alg, true);
    hide Parts;
    FlippedSibling(x, t, h);
    Replug(x.up, t', h + 1);
  }

  /** A black parent passes the lack on to its own parent. */
  lemma {:induction false} PassedUp<A>(x: Ctx, t: Tree, h: int, m: Arena<A>, m': Arena<A>, root: Ptr, alg: Alg<A>)
    requires Parts(x, t, m, root, alg) && BlackShort(x, t, h) && x.black && x.other.Node? && IsBlack(x.other)
      && IsBlack(Near(x.other, x.side)) && IsBlack(Far(x.other, x.side))
    requires x.ptr in m && x.other.ptr in m && x.ptr != x.other.ptr && m[x.other.ptr].parent == x.ptr && m[x.ptr].black
    requires m' == m[x.other.ptr := m[x.other.ptr].(parent := x.ptr, black := false)]
    ensures var t' := Build(x.side, x.ptr, true, t, Paint(x.other, false));
            && Parts(x.up, t', m', root, alg) && InOrder(Plug(x.up, t')) == InOrder(Plug(x, t)) && Root(t') == x.ptr
            && t'.Node?
            && (if x.up.Up? then BlackShort(x.up, t', h + 1) else RedBlack(Plug(x.up, t')))
            && x.ptr in m' && m'[x.ptr].parent == TopPtr(x.up, NULL) && (x.up.Up? <==> TopPtr(x.up, NULL) != NULL)
  {
    var t' := Build(x.side, x.ptr, true, t, Paint(x.other, false));
    ShortBalance(x, t, h);
    SiblingPainted(x, t, m, m', root, alg, true);
    BuildRoot(x.side, x.ptr, true, t, Paint(x.other, false));
    hide Parts, Bal, RedOk, CtxBal, CtxRed, Build, Paint, Plug, InOrder, RedBlack;
    PartsTop(x.up, t', m', root, alg);
    FlippedSibling(x, t, h);
    if x.up.Top? { Replug(x.up, t', h + 1); }
  }

  lemma {:induction false} FlippedSibling(x: Ctx, t: Tree, h: int)
    requires BlackShort(x, t, h) && x.other.Node? && IsBlack(Near(x.other, x.side)) && IsBlack(Far(x.other, x.side))
      && x.other.black
    ensures var t' := Build(x.side, x.ptr, true, t, Paint(x.other, false));
            Bal(t', h + 1) && RedOk(t') && IsBlack(t') && InOrder(Plug(x.up, t')) == InOrder(Plug(x, t))
  {
    var k := Paint(x.other, false);
    var t' := Build(x.side, x.ptr, true, t, k);
    ShortBalance(x, t, h);
    assert Bal(k, h) && RedOk(k);
    BuildBalance(x.side, x.ptr, true, t, k, h + 1);
    PaintKeeps(x.other, false);
    BuildOrder(x.side, x.ptr, true, t, k);
    BuildOrder(x.side, x.ptr, x.black, t, x.other);
    SameOrder(x.up, Build(x.side, x.ptr, x.black, t, x.other), t');
  }

  lemma {:induction false} SiblingPainted<A>(x: Ctx, t: Tree, m: Arena<A>, m': Arena<A>, root: Ptr, alg: Alg<A>,
      c: bool)
    requires x.Up? && Parts(x, t, m, root, alg) && x.other.Node? && x.ptr in m && x.other.ptr in m && x.ptr in m'
      && x.other.ptr in m' && OnlyOn(m, m', {x.ptr, x.other.ptr})
    requires m'[x.ptr] == m[x.ptr].(black := c) && m'[x.other.ptr] == m[x.other.ptr].(black := false)
    ensures Parts(x.up, Build(x.side, x.ptr, c, t, Paint(x.other, false)), m', root, alg)
  {
    PartsUp(x, t, m, root, alg);
    FlipFacts(x.up, x.side, x.ptr, x.black, t, x.other, m, root, alg);
    hide Parts, Build, Paint;
    Recoloured(x.up, x.side, x.ptr, x.black, c, t, t.Node? && t.black, x.other, false, m, m', root, alg);
    Unpainted(t);
  }

  /** A red nephew on the far side: one rotation. */
  lemma {:induction false} LineFacts<A>(x: Ctx, t: Tree, h: int, m: Arena<A>, root: Ptr, alg: Alg<A>)
    requires Parts(x, t, m, root, alg) && BlackShort(x, t, h) && x.other.Node? && IsBlack(x.other)
      && !IsBlack(Far(x.other, x.side))
    ensures var s, k := x.side, x.other; var a, b := Far(k, s), Near(k, s);
            && Parts(x.up, Straight(Opp(s), x.ptr, x.black, k.ptr, true, a, b, t), m, root, alg)
            && Stale(m, m, Opp(s), x.ptr, k.ptr, Root(a)) && Root(a) != NULL
            && var t' := Rotated(Opp(s), x.ptr, true, k.ptr, x.black, Paint(a, true), b, t);
               RedBlack(Plug(x.up, t')) && InOrder(Plug(x.up, t')) == InOrder(Plug(x, t))
  {
    var s, k := x.side, x.other;
    var a, b := Far(k, s), Near(k, s);
    ShortBalance(x, t, h);
    ShortFacts(x, t, h, m, root, alg);
    PartsAcross(x, t, m, root, alg);
    hide Parts;
    Rebuild(k, Opp(s));
    OppOpp(s);
    NotStale(m, Opp(s), x.ptr, k.ptr, Root(a));
    PaintBlack(a, h);
    PaidBack(x, t, h, k.ptr, a, Paint(a, true), b);
  }

  /** The last rotation of an erasure: the lifted node takes the parent's colour, the two below are black. */
  lemma {:induction false} PaidBack(x: Ctx, t: Tree, h: int, n: Ptr, a: Tree, a': Tree, b: Tree)
    requires BlackShort(x, t, h) && Bal(a', h + 1) && RedOk(a') && IsBlack(a') && Bal(b, h) && RedOk(b)
      && InOrder(a') == InOrder(a)
    requires InOrder(Plug(x.up, Straight(Opp(x.side), x.ptr, x.black, n, true, a, b, t))) == InOrder(Plug(x, t))
    ensures var t' := Rotated(Opp(x.side), x.ptr, true, n, x.black, a', b, t);
            RedBlack(Plug(x.up, t')) && InOrder(Plug(x.up, t')) == InOrder(Plug(x, t))
  {
    var o := Opp(x.side);
    ShortBalance(x, t, h);
    var q := Build(o, x.ptr, true, b, t);
    var t1, t' := Rotated(o, x.ptr, true, n, x.black, a, b, t), Rotated(o, x.ptr, true, n, x.black, a', b, t);
    BuildBalance(o, x.ptr, true, b, t, h + 1);
    BuildBalance(o, n, x.black, a', q, h + 1 + Count(x.black));
    Replug(x.up, t', h + 1 + Count(x.black));
    RotatedOrder(o, x.ptr, x.black, n, true, true, x.black, a, b, t);
    BuildOrder(o, n, x.black, a, q);
    BuildOrder(o, n, x.black, a', q);
    SameOrder(x.up, Straight(o, x.ptr, x.black, n, true, a, b, t), t');
  }

  /** A red nephew on the near side: two rotations. */
  lemma {:induction false} BentFacts<A>(x: Ctx, t: Tree, h: int, m: Arena<A>, root: Ptr, alg: Alg<A>)
    requires Parts(x, t, m, root, alg) && BlackShort(x, t, h) && x.other.Node? && IsBlack(x.other)
      && !IsBlack(Near(x.other, x.side))
    ensures var s, k := x.side, x.other; var n := Near(k, s);
            && n.Node? && Parts(Across(x, t), Straight(s, k.ptr, true, n.ptr, false, Near(n, s), Far(n, s), Far(k, s)),
                   m, root, alg) && IsBlack(Far(n, s))
            && KidOf(m[k.ptr], s) == n.ptr
  {
    ShortBalance(x, t, h);
    ShortFacts(x, t, h, m, root, alg);
    PartsAcross(x, t, m, root, alg);
    hide Parts;
    Rebuild(x.other, x.side);
    Rebuild(Near(x.other, x.side), x.side);
  }

  lemma {:induction false} BentTurned<A>(x: Ctx, t: Tree, h: int, v: Arena<A>, root: Ptr, alg: Alg<A>)
    requires BlackShort(x, t, h) && x.other.Node? && IsBlack(x.other) && Near(x.other, x.side).Node?
      && !IsBlack(Near(x.other, x.side)) && IsBlack(Far(x.other, x.side))
    requires var s, k := x.side, x.other; var n := Near(k, s);
             Parts(Across(x, t), Rotated(s, k.ptr, true, n.ptr, true, Near(n, s), Far(n, s), Far(k, s)), v, root, alg)
    ensures var s, k := x.side, x.other;
            var n := Near(k, s); var a, b := Build(s, k.ptr, true, Far(n, s), Far(k, s)), Near(n, s);
            && Parts(x.up, Straight(Opp(s), x.ptr, x.black, n.ptr, true, a, b, t), v, root, alg) && Root(a) == k.ptr
            && k.ptr != NULL
            && n.ptr in v && KidOf(v[n.ptr], s) == Root(b)
            && var t' := Rotated(Opp(s), x.ptr, true, n.ptr, x.black, Paint(a, true), b, t);
               RedBlack(Plug(x.up, t')) && InOrder(Plug(x.up, t')) == InOrder(Plug(x, t))
  {
    var s, k := x.side, x.other;
    var n := Near(k, s);
    var a, b := Build(s, k.ptr, true, Far(n, s), Far(k, s)), Near(n, s);
    var r := Rotated(s, k.ptr, true, n.ptr, true, b, Far(n, s), Far(k, s));
    assert r == Build(Opp(s), n.ptr, true, a, b);
    PartsUp(Across(x, t), r, v, root, alg);
    RotateFacts(x.up, Opp(s), x.ptr, x.black, n.ptr, true, a, b, t, v, root, alg);
    hide Parts;
    OppOpp(s);
    ShortBalance(x, t, h);
    BuildRoot(s, k.ptr, true, Far(n, s), Far(k, s));
    PaintedBuild(s, k.ptr, true, Far(n, s), Far(k, s), true);
    BuildBalance(s, k.ptr, true, Far(n, s), Far(k, s), h + 1);
    Rebuild(k, s);
    Rebuild(n, s);
    RotatedOrder(s, k.ptr, true, n.ptr, false, true, true, b, Far(n, s), Far(k, s));
    SameOrder(Across(x, t), k, r);
    PaidBack(x, t, h, n.ptr, a, a, b);
  }

  lemma {:induction false} BentTmp<A>(m: Arena<A>, v: Arena<A>, s: Side, g: Ptr, p: Ptr, outer: Ptr, b: Tree)
    requires Stale(m, v, s, g, p, outer) && KidOf(v[p], Opp(s)) == Root(b)
    ensures p in m && KidOf(m[p], Opp(s)) == Root(b)
  {
    KidsKept(v[p], m[p], Opp(s));
  }

  /** The state of the insertion fix-up: a red subtree, in order in itself, in a context in order above its parent. */
  ghost predicate RedFix(x: Ctx, t: Tree, h: int) {
    t.Node? && !t.black && Bal(t, h) && RedOk(t) && CtxBal(x, h) && CtxRed(x)
  }

  lemma {:induction false} RedFacts(x: Ctx, t: Tree, h: int)
    requires RedFix(x, t, h)
    ensures t.Node? && !t.black && Bal(t, h) && RedOk(t) && CtxBal(x, h) && CtxRed(x)
    ensures x.Up? && !x.black ==> x.up.Up? && x.up.black && IsBlack(x.other)
    ensures x.Up? && x.black ==> TakesRed(x)
    ensures x.Up? && !x.black ==>
        Bal(x.other, h) && RedOk(x.other) && Bal(x.up.other, h) && RedOk(x.up.other) && CtxBal(x.up.up, h + 1)
        && CtxRed(x.up.up)
  {
    if x.Up? && !x.black {
      assert CtxBal(x.up, h) && CtxRed(x.up);
    }
  }

  lemma {:induction false} RootFacts<A>(x: Ctx, t: Tree, m: Arena<A>, root: Ptr, alg: Alg<A>)
    requires Parts(x, t, m, root, alg) && TopPtr(x, NULL) == NULL
    ensures x == Top && Plug(x, t) == t && Holds(t, m, root, alg)
  {
    HoldsParts(x, t, m, root, alg);
  }

  /** Painting the root black ends the fix-up. */
  lemma {:induction false} RootPainted<A>(t: Tree, h: int, m: Arena<A>, m': Arena<A>, root: Ptr, alg: Alg<A>)
    requires Holds(t, m, root, alg) && RedFix(Top, t, h) && t.ptr in m
      && m' == m[t.ptr := m[t.ptr].(parent := NULL, black := true)]
    ensures var t' := t.(black := true);
            Parts(Top, t', m', root, alg) && RedBlack(Plug(Top, t')) && InOrder(Plug(Top, t')) == InOrder(Plug(Top, t))
  {
    var t' := t.(black := true);
    assert Paint(t, true) == t';
    Rehung(t, m, m', NULL, NULL, true, alg);
    PaintKeeps(t, true);
    assert Bal(t', h + 1);
    HoldsParts(Top, t', m', root, alg);
  }

  /** What the fix-up sees below a red parent. */
  lemma {:induction false} InsertFacts<A>(x: Ctx, t: Tree, h: int, m: Arena<A>, root: Ptr, alg: Alg<A>)
    requires Parts(x, t, m, root, alg) && RedFix(x, t, h) && x.Up? && !x.black
    ensures x.up.Up? && x.up.black
    ensures var g, p, u := x.up.ptr, Build(x.side, x.ptr, false, t, x.other), x.up.other;
            && x.ptr in m && x.ptr != NULL && m[x.ptr].parent == g && g in m && g != NULL
            && (if x.ptr != m[g].right then L else R) == x.up.side
            && KidOf(m[g], Opp(x.up.side)) == Root(u) && (Root(u) != NULL <==> u.Node?)
            && (u.Node? ==> Root(u) == u.ptr && u.ptr in m && m[u.ptr].black == u.black)
            && Parts(x.up.up, Build(x.up.side, g, true, p, u), m, root, alg) && p.Node? && p.ptr == x.ptr
            && (u.Node? ==> (u.black <==> IsBlack(u))) && (u.Leaf? ==> IsBlack(u))
            && (t.ptr == KidOf(m[x.ptr], Opp(x.up.side)) <==> x.side == Opp(x.up.side))
            && (x.side == x.up.side ==> KidOf(m[x.ptr], Opp(x.up.side)) == Root(x.other))
  {
    RedFacts(x, t, h);
    PartsTop(x, t, m, root, alg);
    PartsUp(x, t, m, root, alg);
    var p, u := Build(x.side, x.ptr, false, t, x.other), x.up.other;
    BuildRoot(x.side, x.ptr, false, t, x.other);
    PartsTop(x.up, p, m, root, alg);
    PartsUp(x.up, p, m, root, alg);
    FlipFacts(x.up.up, x.up.side, x.up.ptr, true, p, u, m, root, alg);
    hide Parts, RedFix, Build;
  }

  /** The outer case: node, parent and grandparent in a line. */
  lemma {:induction false} OuterFacts<A>(x: Ctx, t: Tree, h: int, m: Arena<A>, root: Ptr, alg: Alg<A>)
    requires Parts(x, t, m, root, alg) && RedFix(x, t, h) && x.Up? && !x.black && x.up.Up? && x.up.black
      && x.side == x.up.side && IsBlack(x.up.other)
    ensures var s, g, p, u := x.side, x.up.ptr, x.ptr, x.up.other;
            && Parts(x.up.up, Straight(s, g, true, p, false, t, x.other, u), m, root, alg) && Stale(m, m, s, g, p, NULL)
            && IsBlack(x.other)
            && var t' := Rotated(s, g, false, p, true, t, x.other, u);
               RedBlack(Plug(x.up.up, t')) && InOrder(Plug(x.up.up, t')) == InOrder(Plug(x, t))
  {
    var s, g, p, u := x.side, x.up.ptr, x.ptr, x.up.other;
    RedFacts(x, t, h);
    PartsUp(x, t, m, root, alg);
    PartsUp(x.up, Build(s, p, false, t, x.other), m, root, alg);
    RotateFacts(x.up.up, s, g, true, p, false, t, x.other, u, m, root, alg);
    NotStale(m, s, g, p, NULL);
    hide Parts, Stale;
    TurnedBlack(x.up.up, s, g, p, t, x.other, u, h);
    RotatedOrder(s, g, true, p, false, false, true, t, x.other, u);
    SameOrder(x.up.up, Straight(s, g, true, p, false, t, x.other, u), Rotated(s, g, false, p, true, t, x.other, u));
  }

  lemma {:induction false} NotStale<A>(m: Arena<A>, s: Side, g: Ptr, p: Ptr, outer: Ptr)
    requires g in m && p in m && KidOf(m[g], s) == p && (outer != NULL ==> outer in m)
    ensures Stale(m, m, s, g, p, outer)
  {
  }

  /** The last rotation of an insertion ends in a black node with two red ones below. */
  lemma {:induction false} TurnedBlack(x: Ctx, s: Side, g: Ptr, p: Ptr, a: Tree, b: Tree, u: Tree, h: int)
    requires Bal(a, h) && Bal(b, h) && Bal(u, h) && RedOk(a) && RedOk(b) && RedOk(u) && IsBlack(b) && IsBlack(u)
      && CtxBal(x, h + 1) && CtxRed(x)
    ensures RedBlack(Plug(x, Rotated(s, g, false, p, true, a, b, u)))
  {
    BuildBalance(s, g, false, b, u, h);
    BuildBalance(s, p, true, a, Build(s, g, false, b, u), h + 1);
    assert Count(true) == 1 && Count(false) == 0;
    hide *;
    Replug(x, Rotated(s, g, false, p, true, a, b, u), h + 1);
  }

  /** The inner case: the node lies between its parent and grandparent. */
  lemma {:induction false} InnerFacts<A>(x: Ctx, t: Tree, h: int, m: Arena<A>, root: Ptr, alg: Alg<A>)
    requires Parts(x, t, m, root, alg) && RedFix(x, t, h) && x.Up? && !x.black && x.up.Up? && x.side == Opp(x.up.side)
    ensures var s := x.up.side;
            && Parts(x.up, Straight(x.side, x.ptr, false, t.ptr, false, Near(t, x.side), Near(t, s), x.other), m, root,
                   alg) && IsBlack(Near(t, s))
  {
    PartsUp(x, t, m, root, alg);
    hide Parts;
    Rebuild(t, x.side);
    assert t == Build(x.side, t.ptr, false, Near(t, x.side), Near(t, x.up.side));
  }

  /** After its first rotation the inner case is an outer one. */
  lemma {:induction false} InnerTurned<A>(x: Ctx, t: Tree, h: int, v: Arena<A>, root: Ptr, alg: Alg<A>)
    requires RedFix(x, t, h) && x.Up? && !x.black && x.up.Up? && x.up.black && x.side == Opp(x.up.side)
      && IsBlack(x.up.other)
    requires Parts(x.up, Rotated(x.side, x.ptr, false, t.ptr, false, Near(t, x.side), Near(t, x.up.side), x.other), v,
          root, alg)
    ensures var s, g, p, n, u := x.up.side, x.up.ptr, x.ptr, t.ptr, x.up.other;
            var a, b := Build(s, p, false, x.other, Near(t, s)), Near(t, x.side);
            && Parts(x.up.up, Straight(s, g, true, n, false, a, b, u), v, root, alg) && IsBlack(b)
            && var t' := Rotated(s, g, false, n, true, a, b, u);
               RedBlack(Plug(x.up.up, t')) && InOrder(Plug(x.up.up, t')) == InOrder(Plug(x, t))
  {
    var s, g, p, n, u, o := x.up.side, x.up.ptr, x.ptr, t.ptr, x.up.other, x.other;
    var c, b := Near(t, x.side), Near(t, s);
    var a := Build(s, p, false, o, b);
    var r := Rotated(x.side, p, false, n, false, c, b, o);
    assert r == Build(s, n, false, a, c);
    PartsUp(x.up, r, v, root, alg);
    hide Parts;
    RedFacts(x, t, h);
    Rebuild(t, x.side);
    BuildBalance(x.side, n, false, c, b, h);
    BuildBalance(s, p, false, o, b, h);
    TurnedBlack(x.up.up, s, g, n, a, c, u, h);
    RotatedOrder(x.side, p, false, n, false, false, false, c, b, o);
    SameOrder(x.up, Build(x.side, p, false, t, o), r);
    RotatedOrder(s, g, true, n, false, false, true, a, c, u);
    SameOrder(x.up.up, Straight(s, g, true, n, false, a, c, u), Rotated(s, g, false, n, true, a, c, u));
  }

  lemma {:induction false} SameOrder(x: Ctx, t: Tree, t': Tree)
    requires InOrder(t') == InOrder(t)
    ensures InOrder(Plug(x, t')) == InOrder(Plug(x, t))
  {
    PlugOrder(x, t);
    PlugOrder(x, t');
  }

  /** A colour flip moves the fix-up two levels up. */
  lemma {:induction false} Flipped(x: Ctx, t: Tree, h: int)
    requires RedFix(x, t, h) && x.Up? && !x.black && x.up.Up? && x.up.black && !IsBlack(x.up.other)
    ensures var p := Build(x.side, x.ptr, false, t, x.other); var u := x.up.other;
            var t' := Build(x.up.side, x.up.ptr, false, Paint(p, true), Paint(u, true));
            RedFix(x.up.up, t', h + 1) && InOrder(Plug(x.up.up, t')) == InOrder(Plug(x, t)) && t'.ptr == x.up.ptr
  {
    var p := Build(x.side, x.ptr, false, t, x.other);
    var u := x.up.other;
    var t1, t' := Build(x.up.side, x.up.ptr, true, p, u), Build(x.up.side, x.up.ptr, false, Paint(p, true),
          Paint(u, true));
    PaintKeeps(p, true);
    PaintKeeps(u, true);
    RedFacts(x, t, h);
    PaintedBuild(x.side, x.ptr, false, t, x.other, true);
    BuildBalance(x.side, x.ptr, true, t, x.other, h + 1);
    BuildBalance(x.up.side, x.up.ptr, false, Paint(p, true), Paint(u, true), h + 1);
    BuildRoot(x.up.side, x.up.ptr, false, Paint(p, true), Paint(u, true));
    hide Build;
    PaintBlack(u, h);
    BuildOrder(x.up.side, x.up.ptr, true, p, u);
    BuildOrder(x.up.side, x.up.ptr, false, Paint(p, true), Paint(u, true));
    SameOrder(x.up.up, t1, t');
  }

  /** The arena `m` differs from `v` only in what a rotation of `g` and its child `p` overwrites. */
  ghost predicate Stale<A>(m: Arena<A>, v: Arena<A>, s: Side, g: Ptr, p: Ptr, outer: Ptr) {
    && OnlyOn(m, v, {g, p, outer}) && g in m && p in m && g in v && p in v
    && v[g] == WithKid(m[g], s, p)
    && v[p] == m[p].(parent := v[p].parent, black := v[p].black)
    && (outer != NULL ==>
           outer in m && outer in v && v[outer] == m[outer].(parent := v[outer].parent, black := v[outer].black))
  }

  /** What a rotation reads in an arena that may be stale. */
  lemma {:induction false} TopFacts<A>(x: Ctx, s: Side, g: Ptr, cg: bool, p: Ptr, cp: bool, a: Tree, b: Tree, u: Tree,
      outer: Ptr, m: Arena<A>, v: Arena<A>, root: Ptr, alg: Alg<A>)
    requires Parts(x, Straight(s, g, cg, p, cp, a, b, u), v, root, alg) && Stale(m, v, s, g, p, outer)
      && (outer == NULL || outer == Root(a))
    ensures g in m && p in m && g != p && KidOf(m[g], Opp(s)) == Root(u) && Root(u) != p && Root(b) != p && p != NULL
      && (b.Node? ==> b.ptr != NULL)
    ensures Root(b) != NULL ==> Root(b) in m && Root(b) !in {g, p, outer}
    ensures outer != NULL ==> outer in m && outer !in {g, p, Root(b)}
    ensures m[g].parent != NULL ==> m[g].parent in m && m[g].parent !in {g, p, Root(b), outer}
  {
    RotateFacts(x, s, g, cg, p, cp, a, b, u, v, root, alg);
    hide Parts, Straight, RootAug;
    if a.Leaf? { assert Root(a) == NULL; }
    KidSet(m[g], s, p);
  }

  /** The writes of a rotation in an arena that may have been stale. */
  lemma {:induction false} RotateDone<A>(x: Ctx, s: Side, g: Ptr, cg: bool, cg': bool, p: Ptr, cp: bool, a: Tree,
      b: Tree, u: Tree, outer: Ptr, keep: bool,
                      m: Arena<A>, m1: Arena<A>, m2: Arena<A>, v: Arena<A>, root: Ptr, root': Ptr, alg: Alg<A>)
    requires WroteKids(s, g, p, Root(b), outer, keep, m, m1) && WroteUp(g, cg', p, m1, m2, root, root', alg)
    requires Parts(x, Straight(s, g, cg, p, cp, a, b, u), v, root, alg) && Stale(m, v, s, g, p, outer)
    requires (keep || IsBlack(b)) && (outer == NULL || outer == Root(a))
    ensures Parts(x, Rotated(s, g, cg', p, cg, Painted(a, outer), b, u), m2, root', alg)
  {
    TopFacts(x, s, g, cg, p, cp, a, b, u, outer, m, v, root, alg);
    KidsWritten(s, g, p, Root(b), outer, keep, m, m1, g);
    StaleFacts(m, v, s, g, p, outer);
    var v1 := m1[p := m1[p].(parent := v[p].parent, black := v[p].black)];
    hide Parts, Stale, KidOf, WithKid, Opp, Compute, OnlyOn, Painted, Build, IsBlack, WroteKids, WroteUp;
    StaleKids(m, v, s, g, p, Root(b), outer, keep, m1, v1);
    StaleUp(m1, v1, m2, g, cg', p, root, root', alg);
    RotateWrites(x, s, g, cg, cg', p, cp, a, b, u, outer, keep, v, v1, m2, root, root', alg);
  }

  lemma {:induction false} StaleFacts<A>(m: Arena<A>, v: Arena<A>, s: Side, g: Ptr, p: Ptr, outer: Ptr)
    requires Stale(m, v, s, g, p, outer)
    ensures m.Keys == v.Keys && g in m && p in m && m[g].parent == v[g].parent && m[g].black == v[g].black
      && m[g].aug == v[g].aug && m[p].aug == v[p].aug
  {
  }

  lemma {:induction false} StaleUp<A>(m1: Arena<A>, v1: Arena<A>, m2: Arena<A>, g: Ptr, black: bool, p: Ptr, root: Ptr,
      root': Ptr, alg: Alg<A>)
    requires WroteUp(g, black, p, m1, m2, root, root', alg) && g != p && m1[g].parent != p && m1[g].parent != g
    requires v1.Keys == m1.Keys && v1 == m1[p := m1[p].(parent := v1[p].parent, black := v1[p].black)]
    ensures WroteUp(g, black, p, v1, m2, root, root', alg)
  {
    assert forall q :: q in m1 ==> v1[q].aug == m1[q].aug;
    assert Compute(v1, g, alg) == Compute(m1, g, alg);
  }

  /** The finished form of a rotation whose upper links are still to be written. */
  lemma {:induction false} ParentTurned<A>(m1: Arena<A>, m2: Arena<A>, v: Arena<A>, g: Ptr, p: Ptr, up: Ptr, side: Side,
      root: Ptr, alg: Alg<A>)
    requires g in m1 && p in m1 && up in m1 && g != p && up != g && up != p && !m1[p].black && !m1[g].black
    requires m1[g].left != p && m1[g].right != p
    requires g in m2 && m2[g].aug == Compute(m1[g := m1[g].(parent := p, black := false)], g, alg)
    requires m2 == m1[g := m1[g].(parent := p, black := false, aug := m2[g].aug)][p := m1[p].(aug := m1[g].aug)]
    requires v == m2[p := m2[p].(parent := up)][up := WithKid(m2[up], side, p)]
    requires m1[g].parent == up && (if m1[up].left == g then L else R) == side && up != NULL
    ensures WroteUp(g, false, p, m1, v, root, root, alg)
    ensures Stale(m2, v, side, up, p, NULL)
  {
    var m := m1[g := m1[g].(parent := p, black := false)];
    assert forall q :: q in m1 ==> m[q].aug == m1[q].aug;
    assert Compute(m, g, alg) == Compute(m1, g, alg);
  }

  lemma {:induction false} SiblingTurned<A>(m1: Arena<A>, m2: Arena<A>, v: Arena<A>, g: Ptr, p: Ptr, up: Ptr,
      side: Side, root: Ptr, alg: Alg<A>)
    requires g in m1 && p in m1 && up in m1 && g != p && up != g && up != p && m1[g].black && g != NULL
    requires m1[g].left != p && m1[g].right != p
    requires g in m2 && m2[g].aug == Compute(m1[up := WithKid(m1[up], side, p)], g, alg)
    requires m2 == m1[up := WithKid(m1[up], side, p)][g := m1[g].(aug := m2[g].aug)][p := m1[p].(aug := m1[g].aug)]
    requires v == m2[p := m2[p].(parent := up, black := true)][g := m2[g].(parent := p, black := true)]
    requires m1[g].parent == up && (if m1[up].left == g then L else R) == side && up != NULL
    ensures WroteUp(g, true, p, m1, v, root, root, alg)
    ensures Stale(m2, v, side, up, p, g)
  {
    var m := m1[up := WithKid(m1[up], side, p)];
    KidSet(m1[up], side, p);
    assert forall q :: q in m1 ==> m[q].aug == m1[q].aug;
    assert Compute(m, g, alg) == Compute(m1, g, alg);
  }

  lemma {:induction false} StaleKids<A>(m: Arena<A>, v: Arena<A>, s: Side, g: Ptr, p: Ptr, tmp: Ptr, outer: Ptr,
      keep: bool, m1: Arena<A>, v1: Arena<A>)
    requires Stale(m, v, s, g, p, outer) && g != p && (tmp != NULL ==> tmp !in {g, p, outer})
      && (outer != NULL ==> outer !in {g, p, tmp})
    requires WroteKids(s, g, p, tmp, outer, keep, m, m1)
    requires v1 == m1[p := m1[p].(parent := v[p].parent, black := v[p].black)]
    ensures WroteKids(s, g, p, tmp, outer, keep, v, v1)
  {
  }

  /** After its first writes a rotation reads what it read before. */
  lemma {:induction false} KidsWritten<A>(s: Side, g: Ptr, p: Ptr, tmp: Ptr, outer: Ptr, keep: bool, m: Arena<A>,
      m1: Arena<A>, q: Ptr)
    requires WroteKids(s, g, p, tmp, outer, keep, m, m1) && g != p
    ensures m1.Keys == m.Keys && g in m1 && p in m1 && m1[g].parent == m[g].parent && m1[g].black == m[g].black
      && m1[p].black == m[p].black
    ensures KidOf(m1[g], s) == tmp && KidOf(m1[g], Opp(s)) == KidOf(m[g], Opp(s))
    ensures q in m && q !in {g, p, tmp, outer, NULL} ==> m1[q] == m[q]
  {
  }

  lemma {:induction false} KeptHere<A>(m: Arena<A>, m': Arena<A>, w: set<Ptr>, p: Ptr)
    requires OnlyOn(m, m', w) && p in m && p != NULL && p !in w
    ensures p in m' && m'[p] == m[p]
  {
  }

  /** The first writes of a rotation of `g` and its child `p`: the children, and colours below. */
  ghost predicate WroteKids<A>(s: Side, g: Ptr, p: Ptr, tmp: Ptr, outer: Ptr, keep: bool, m: Arena<A>, m1: Arena<A>) {
    && g in m && p in m && g in m1 && p in m1
    && OnlyOn(m, m1, {g, p, tmp, outer}) && m1[g] == WithKid(m[g], s, tmp) && m1[p] == WithKid(m[p], Opp(s), g)
    && (tmp != NULL ==> tmp in m && tmp in m1 && m1[tmp] == m[tmp].(parent := g, black := !keep || m[tmp].black))
    && (outer != NULL ==> outer in m && outer in m1 && m1[outer] == m[outer].(parent := p, black := true))
  }

  /** Its last ones: the links above, the two colours, and the summaries. */
  ghost predicate WroteUp<A>(g: Ptr, black: bool, p: Ptr, m1: Arena<A>, m2: Arena<A>, root: Ptr, root': Ptr,
      alg: Alg<A>) {
    && g in m1 && p in m1 && g in m2 && p in m2
    && var up := m1[g].parent;
       && OnlyOn(m1, m2, {g, p, up})
       && m2[p] == m1[p].(parent := up, black := m1[g].black, aug := m1[g].aug)
       && m2[g] == m1[g].(parent := p, black := black, aug := Compute(m1, g, alg))
       && root' == (if up == NULL then p else root)
       && (up != NULL ==> up in m1 && up in m2 && m2[up] == WithKid(m1[up], if m1[up].left == g then L else R, p))
  }

  /** What a rotation leaves in its two nodes. */
  lemma {:induction false} WritesNodes<A>(x: Ctx, s: Side, g: Ptr, cg: bool, cg': bool, p: Ptr, cp: bool, a: Tree,
      b: Tree, u: Tree, outer: Ptr, keep: bool,
                       m: Arena<A>, m1: Arena<A>, m2: Arena<A>, root: Ptr, root': Ptr, alg: Alg<A>)
    requires WroteKids(s, g, p, Root(b), outer, keep, m, m1) && WroteUp(g, cg', p, m1, m2, root, root', alg)
    requires Parts(x, Straight(s, g, cg, p, cp, a, b, u), m, root, alg) && (outer == NULL || outer == Root(a))
    ensures g in m && p in m && g in m2 && p in m2
    ensures m2[p] == Make(s, TopPtr(x, NULL), cg, Root(a), g, m[g].aug)
    ensures m2[g] == Make(s, p, cg', Root(b), Root(u), Combine(alg, s, RootAug(b, m, alg), g, RootAug(u, m, alg)))
  {
    RotateFacts(x, s, g, cg, p, cp, a, b, u, m, root, alg);
    hide Parts, KidOf, WithKid, Make, Opp, Combine, RootAug, Compute;
    var v := Compute(m1, g, alg);
    KidSet(m[g], s, Root(b));
    ComputeSide(m1, g, alg, s);
    RotateAugs(g, p, b, u, outer, m, m1, alg);
    hide OnlyOn;
    LowRecord(m[g], m1[g], m2[g], s, Root(b), Root(u), p, cg', v);
    HighRecord(m[p], m1[p], m2[p], s, g, TopPtr(x, NULL), cg, m[g].aug, Root(a));
  }

  /** What it leaves beside and below them. */
  lemma {:induction false} WritesAround<A>(x: Ctx, s: Side, g: Ptr, cg: bool, cg': bool, p: Ptr, cp: bool, a: Tree,
      b: Tree, u: Tree, outer: Ptr, keep: bool,
                        m: Arena<A>, m1: Arena<A>, m2: Arena<A>, root: Ptr, root': Ptr, alg: Alg<A>)
    requires WroteKids(s, g, p, Root(b), outer, keep, m, m1) && WroteUp(g, cg', p, m1, m2, root, root', alg)
    requires Parts(x, Straight(s, g, cg, p, cp, a, b, u), m, root, alg) && (keep || IsBlack(b))
      && (outer == NULL || outer == Root(a))
    ensures OnlyOn(m, m2, {g, p, Root(a), Root(b), TopPtr(x, NULL)})
    ensures a.Node? ==>
        a.ptr in m && a.ptr in m2 && m2[a.ptr] == m[a.ptr].(black := if outer == NULL then a.black else true)
    ensures b.Node? ==> b.ptr in m && b.ptr in m2 && m2[b.ptr] == m[b.ptr].(parent := g)
  {
    RotateFacts(x, s, g, cg, p, cp, a, b, u, m, root, alg);
    KidsWritten(s, g, p, Root(b), outer, keep, m, m1, g);
    hide Parts, Straight, KidOf, WithKid, Opp, OnlyOn, RootAug, Compute, Build;
    OnlyOnTwice(m, m1, m2, {g, p, Root(b), outer}, {g, p, TopPtr(x, NULL)}, {g, p, Root(a), Root(b), TopPtr(x, NULL)});
    RotateOuter(g, p, a, b, outer, m, m1, m2, TopPtr(x, NULL));
    if b.Node? { KeptHere(m1, m2, {g, p, TopPtr(x, NULL)}, b.ptr); }
  }

  /** What it leaves above. */
  lemma {:induction false} WritesAbove<A>(x: Ctx, s: Side, g: Ptr, cg: bool, cg': bool, p: Ptr, cp: bool, a: Tree,
      b: Tree, u: Tree, outer: Ptr, keep: bool,
                       m: Arena<A>, m1: Arena<A>, m2: Arena<A>, root: Ptr, root': Ptr, alg: Alg<A>)
    requires WroteKids(s, g, p, Root(b), outer, keep, m, m1) && WroteUp(g, cg', p, m1, m2, root, root', alg)
    requires Parts(x, Straight(s, g, cg, p, cp, a, b, u), m, root, alg) && (outer == NULL || outer == Root(a))
    ensures if x.Up? then root' == root && x.ptr in m && x.ptr in m2 && m2[x.ptr] == WithKid(m[x.ptr], x.side, p)
        else root' == p
  {
    RotateFacts(x, s, g, cg, p, cp, a, b, u, m, root, alg);
    KidsWritten(s, g, p, Root(b), outer, keep, m, m1, TopPtr(x, NULL));
    hide Parts, Straight, KidOf, WithKid, Opp, OnlyOn, RootAug, Compute, Build, WroteKids;
    if x.Up? {
      assert x.ptr !in {g, p, Root(b), outer, NULL};
      WhichSide(m[x.ptr], x.side, g);
    }
  }

  /** The writes of a rotation, put together. */
  lemma {:induction false} RotateWrites<A>(x: Ctx, s: Side, g: Ptr, cg: bool, cg': bool, p: Ptr, cp: bool, a: Tree,
      b: Tree, u: Tree, outer: Ptr, keep: bool,
                        m: Arena<A>, m1: Arena<A>, m2: Arena<A>, root: Ptr, root': Ptr, alg: Alg<A>)
    requires WroteKids(s, g, p, Root(b), outer, keep, m, m1) && WroteUp(g, cg', p, m1, m2, root, root', alg)
    requires Parts(x, Straight(s, g, cg, p, cp, a, b, u), m, root, alg) && (keep || IsBlack(b))
      && (outer == NULL || outer == Root(a))
    ensures Parts(x, Rotated(s, g, cg', p, cg, Painted(a, outer), b, u), m2, root', alg)
  {
    hide WroteKids, WroteUp, Parts, Paint, KidOf, WithKid, Make, Combine, RootAug, Compute, OnlyOn, IsBlack;
    WritesNodes(x, s, g, cg, cg', p, cp, a, b, u, outer, keep, m, m1, m2, root, root', alg);
    WritesAround(x, s, g, cg, cg', p, cp, a, b, u, outer, keep, m, m1, m2, root, root', alg);
    WritesAbove(x, s, g, cg, cg', p, cp, a, b, u, outer, keep, m, m1, m2, root, root', alg);
    var ca := if outer == NULL then a.Node? && a.black else true;
    assert Painted(a, outer) == Paint(a, ca) by { Unpainted(a); }
    hide Painted;
    RotatedAll(x, s, g, cg, cg', p, cp, a, ca, b, u, m, m2, root, root', alg);
  }

  /** The subtree beside a rotation, with its root painted black if `outer` names it. */
  function Painted(a: Tree, outer: Ptr): Tree {
    if outer == NULL then a else Paint(a, true)
  }

  /** What an unfinished rotation reads and writes. */
  lemma {:induction false} TurnFacts<A>(x: Ctx, s: Side, g: Ptr, cg: bool, p: Ptr, cp: bool, a: Tree, b: Tree, u: Tree,
      m: Arena<A>, root: Ptr, alg: Alg<A>)
    requires x.Up? && Parts(x, Straight(s, g, cg, p, cp, a, b, u), m, root, alg)
    ensures g in m && p in m && g != p && p != NULL && g != NULL && KidOf(m[g], Opp(s)) != p
      && KidOf(m[p], Opp(s)) == Root(b) && Root(b) != p
    ensures m[g].parent == x.ptr && m[g].black == cg && m[p].black == cp
    ensures Root(b) != NULL ==> Root(b) in m && Root(b) !in {g, p, NULL}
    ensures x.ptr in m && x.ptr != NULL && x.ptr !in {g, p, Root(b), NULL}
      && (if m[x.ptr].left == g then L else R) == x.side
    ensures b.Node? ==> b.ptr in m && b.ptr == Root(b) != NULL
  {
    RotateFacts(x, s, g, cg, p, cp, a, b, u, m, root, alg);
    hide Parts, Straight;
    WhichSide(m[x.ptr], x.side, g);
  }

  lemma {:induction false} HighRecord<A>(n: RbNode<A>, n1: RbNode<A>, n2: RbNode<A>, s: Side, g: Ptr, up: Ptr,
      black: bool, aug: A, near: Ptr)
    requires n1 == WithKid(n, Opp(s), g) && n2 == n1.(parent := up, black := black, aug := aug) && KidOf(n, s) == near
    ensures n2 == Make(s, up, black, near, g, aug)
  {
  }

  lemma {:induction false} LowRecord<A>(n: RbNode<A>, n1: RbNode<A>, n2: RbNode<A>, s: Side, k: Ptr, far: Ptr, p: Ptr,
      black: bool, aug: A)
    requires n1 == WithKid(n, s, k) && n2 == n1.(parent := p, black := black, aug := aug) && KidOf(n, Opp(s)) == far
    ensures n2 == Make(s, p, black, k, far, aug)
  {
  }

  /** The summaries that the lowered node is computed from have not changed. */
  lemma {:induction false} RotateAugs<A>(g: Ptr, p: Ptr, b: Tree, u: Tree, outer: Ptr, m: Arena<A>, m1: Arena<A>,
      alg: Alg<A>)
    requires OnlyOn(m, m1, {g, p, Root(b), outer})
    requires b.Node? ==> b.ptr in m && b.ptr != NULL && b.ptr in m1 && m1[b.ptr].aug == m[b.ptr].aug
    requires u.Node? ==> u.ptr in m && u.ptr !in {g, p, Root(b), outer, NULL}
    ensures AugAt(m1, Root(b), alg) == RootAug(b, m, alg) && AugAt(m1, Root(u), alg) == RootAug(u, m, alg)
  {
  }

  lemma {:induction false} RotateOuter<A>(g: Ptr, p: Ptr, a: Tree, b: Tree, outer: Ptr, m: Arena<A>, m1: Arena<A>,
      m2: Arena<A>, top: Ptr)
    requires OnlyOn(m, m1, {g, p, Root(b), outer}) && OnlyOn(m1, m2, {g, p, top})
    requires a.Node? ==>
        a.ptr in m && a.ptr !in {g, p, Root(b), top, NULL} && m[a.ptr].parent == p && m[a.ptr].black == a.black
    requires outer == NULL || outer == Root(a)
    requires outer != NULL ==> outer in m && outer in m1 && m1[outer] == m[outer].(parent := p, black := true)
    ensures a.Node? ==> a.ptr in m2 && m2[a.ptr] == m[a.ptr].(black := if outer == NULL then a.black else true)
  {
  }

  /** All that a rotation reads, and that what it writes is apart. */
  lemma {:induction false} RotateFacts<A>(x: Ctx, s: Side, g: Ptr, cg: bool, p: Ptr, cp: bool, a: Tree, b: Tree,
      u: Tree, m: Arena<A>, root: Ptr, alg: Alg<A>)
    requires Parts(x, Straight(s, g, cg, p, cp, a, b, u), m, root, alg)
    ensures g in m && p in m && g != NULL && p != NULL && g != p
    ensures m[g].parent == TopPtr(x, NULL) && m[g].black == cg && KidOf(m[g], s) == p && KidOf(m[g], Opp(s)) == Root(u)
    ensures m[p].parent == g && m[p].black == cp && KidOf(m[p], s) == Root(a) && KidOf(m[p], Opp(s)) == Root(b)
    ensures a.Node? ==>
        a.ptr in m && m[a.ptr].parent == p && m[a.ptr].black == a.black
        && a.ptr !in {g, p, Root(b), TopPtr(x, NULL), NULL}
    ensures b.Node? ==>
        b.ptr in m && m[b.ptr].parent == p && m[b.ptr].black == b.black
        && b.ptr !in {g, p, Root(a), TopPtr(x, NULL), NULL}
    ensures u.Node? ==> u.ptr in m && u.ptr !in {g, p, Root(a), Root(b), TopPtr(x, NULL), NULL}
    ensures x.Top? ==> root == g
    ensures x.Up? ==>
        x.ptr in m && x.ptr !in {g, p, NULL} && KidOf(m[x.ptr], x.side) == g && KidOf(m[x.ptr], Opp(x.side)) != g
    ensures RootAug(a, m, alg) == if a.Node? then m[a.ptr].aug else alg.unit
    ensures RootAug(b, m, alg) == if b.Node? then m[b.ptr].aug else alg.unit
    ensures RootAug(u, m, alg) == if u.Node? then m[u.ptr].aug else alg.unit
  {
    var tp := Build(s, p, cp, a, b);
    var t := Build(s, g, cg, tp, u);
    PartsTop(x, t, m, root, alg);
    PartsKeys(x, t, m, root, alg);
    BuildDistinct(s, p, cp, a, b);
    BuildDistinct(s, g, cg, tp, u);
    LinkedBuild(s, p, cp, a, b, m, g, alg);
    LinkedBuild(s, g, cg, tp, u, m, TopPtr(x, NULL), alg);
    if a.Node? { RootColour(a, m, p); }
    if b.Node? { RootColour(b, m, p); }
    if u.Node? { RootColour(u, m, g); }
  }

  /** The tree after a rotation. */
  lemma {:induction false} RotatedAll<A>(x: Ctx, s: Side, g: Ptr, cg: bool, cg': bool, p: Ptr, cp: bool, a: Tree,
      ca: bool, b: Tree, u: Tree,
                      m: Arena<A>, m': Arena<A>, root: Ptr, root': Ptr, alg: Alg<A>)
    requires Parts(x, Straight(s, g, cg, p, cp, a, b, u), m, root, alg)
    requires OnlyOn(m, m', {g, p, Root(a), Root(b), TopPtr(x, NULL)})
    requires g in m && p in m
    requires m'[p] == Make(s, TopPtr(x, NULL), cg, Root(a), g, m[g].aug)
    requires m'[g] == Make(s, p, cg', Root(b), Root(u), Combine(alg, s, RootAug(b, m, alg), g, RootAug(u, m, alg)))
    requires a.Node? ==> a.ptr in m && m'[a.ptr] == m[a.ptr].(black := ca)
    requires b.Node? ==> b.ptr in m && m'[b.ptr] == m[b.ptr].(parent := g)
    requires if x.Up? then root' == root && x.ptr in m && m'[x.ptr] == WithKid(m[x.ptr], x.side, p) else root' == p
    ensures Parts(x, Rotated(s, g, cg', p, cg, Paint(a, ca), b, u), m', root', alg)
  {
    var t, t' := Straight(s, g, cg, p, cp, a, b, u), Rotated(s, g, cg', p, cg, Paint(a, ca), b, u);
    RotateApart(x, s, g, cg, p, cp, a, b, u, m, root, alg);
    hide Linked, Distinct, Right, Ptrs, Build, Paint, LinkedCtx, RightCtx, CtxDistinct, OnlyOn, CtxPtrs, Law, Straight,
      Rotated, Make, Combine;
    var w := {g, p, Root(a), Root(b), TopPtr(x, NULL)};
    SameFrom(m, m', w, Ptrs(a) - {Root(a)});
    SameFrom(m, m', w, Ptrs(b) - {Root(b)});
    SameFrom(m, m', w, Ptrs(u));
    SameFrom(m, m', w, CtxPtrs(x) - {TopPtr(x, NULL)});
    KeptKeys(m, m', w, if a.Node? then a.ptr else g);
    KeptKeys(m, m', w, if b.Node? then b.ptr else g);
    KeptKeys(m, m', w, g);
    KeptKeys(m, m', w, p);
    KeptKeys(m, m', w, if x.Up? then x.ptr else g);
    RotateLinks(m, m', alg, TopPtr(x, NULL), s, g, cg, cg', p, cp, cg, a, ca, b, u);
    PaintKeeps(a, ca);
    RotatedDistinct(s, g, cg, p, cp, cg', cg, a, b, u);
    RotatedPaint(s, g, cg', p, cg, a, ca, b, u);
    Exchange(x, t, t', m, m', root, root', alg);
  }

  lemma {:induction false} RotatedPaint(s: Side, g: Ptr, cg: bool, p: Ptr, cp: bool, a: Tree, ca: bool, b: Tree,
      u: Tree)
    ensures var t, t' := Rotated(s, g, cg, p, cp, a, b, u), Rotated(s, g, cg, p, cp, Paint(a, ca), b, u);
            Ptrs(t') == Ptrs(t) && (Distinct(t') <==> Distinct(t)) && InOrder(t') == InOrder(t) && Root(t') == p
  {
    var q := Build(s, g, cg, b, u);
    PaintKeeps(a, ca);
    BuildDistinct(s, p, cp, a, q);
    BuildDistinct(s, p, cp, Paint(a, ca), q);
    BuildOrder(s, p, cp, a, q);
    BuildOrder(s, p, cp, Paint(a, ca), q);
    BuildRoot(s, p, cp, Paint(a, ca), q);
  }

  lemma {:induction false} RotateApart<A>(x: Ctx, s: Side, g: Ptr, cg: bool, p: Ptr, cp: bool, a: Tree, b: Tree,
      u: Tree, m: Arena<A>, root: Ptr, alg: Alg<A>)
    requires Parts(x, Straight(s, g, cg, p, cp, a, b, u), m, root, alg)
    ensures var w := {g, p, Root(a), Root(b), TopPtr(x, NULL)};
            Ptrs(a) - {Root(a)} !! w && Ptrs(b) - {Root(b)} !! w && Ptrs(u) !! w && CtxPtrs(x) - {TopPtr(x, NULL)} !! w
    ensures NULL !in Ptrs(a) && NULL !in Ptrs(b) && NULL !in Ptrs(u) && NULL !in CtxPtrs(x)
  {
    var t := Straight(s, g, cg, p, cp, a, b, u);
    PartsTop(x, t, m, root, alg);
    PartsKeys(x, t, m, root, alg);
    PartsDistinct(x, t, m, root, alg);
    hide Parts;
    StraightApart(s, g, cg, p, cp, a, b, u, CtxPtrs(x), TopPtr(x, NULL));
  }

  lemma {:induction false} PartsDistinct<A>(x: Ctx, t: Tree, m: Arena<A>, root: Ptr, alg: Alg<A>)
    requires Parts(x, t, m, root, alg)
    ensures Distinct(t) && (x.Up? ==> x.ptr in CtxPtrs(x))
  {
  }

  lemma {:induction false} StraightApart(s: Side, g: Ptr, cg: bool, p: Ptr, cp: bool, a: Tree, b: Tree, u: Tree,
      k: set<Ptr>, top: Ptr)
    requires var t := Straight(s, g, cg, p, cp, a, b, u);
            Distinct(t) && NULL !in Ptrs(t) && Ptrs(t) !! k && (top == NULL || top in k) && NULL !in k
    ensures var w := {g, p, Root(a), Root(b), top};
            Ptrs(a) - {Root(a)} !! w && Ptrs(b) - {Root(b)} !! w && Ptrs(u) !! w && k - {top} !! w
    ensures NULL !in Ptrs(a) && NULL !in Ptrs(b) && NULL !in Ptrs(u)
  {
    BuildDistinct(s, p, cp, a, b);
    BuildDistinct(s, g, cg, Build(s, p, cp, a, b), u);
    hide Build, Distinct, Ptrs;
    RootIn(a);
    RootIn(b);
  }

  lemma {:induction false} OppOpp(s: Side)
    ensures Opp(Opp(s)) == s && Opp(s) != s
  {
  }

  /** What the colour changes of a node and its children read and write. */
  lemma {:induction false} FlipFacts<A>(x: Ctx, s: Side, g: Ptr, cg: bool, a: Tree, b: Tree, m: Arena<A>, root: Ptr,
      alg: Alg<A>)
    requires Parts(x, Build(s, g, cg, a, b), m, root, alg)
    ensures g in m && g != NULL && m[g].black == cg && m[g].parent == TopPtr(x, NULL) && KidOf(m[g], s) == Root(a)
      && KidOf(m[g], Opp(s)) == Root(b)
    ensures a.Node? ==> a.ptr in m && m[a.ptr].parent == g && m[a.ptr].black == a.black && a.ptr != g && a.ptr != NULL
    ensures b.Node? ==> b.ptr in m && m[b.ptr].parent == g && m[b.ptr].black == b.black && b.ptr != g && b.ptr != NULL
    ensures a.Node? && b.Node? ==> a.ptr != b.ptr
    ensures TopPtr(x, NULL) != NULL ==> TopPtr(x, NULL) in m && TopPtr(x, NULL) !in {g, Root(a), Root(b)}
  {
    var t := Build(s, g, cg, a, b);
    PartsTop(x, t, m, root, alg);
    BuildDistinct(s, g, cg, a, b);
    LinkedBuild(s, g, cg, a, b, m, TopPtr(x, NULL), alg);
    if a.Node? { RootColour(a, m, g); }
    if b.Node? { RootColour(b, m, g); }
  }

  lemma {:induction false} Recoloured<A>(x: Ctx, s: Side, g: Ptr, cg: bool, cg': bool, a: Tree, ca: bool, b: Tree,
      cb: bool, m: Arena<A>, m': Arena<A>, root: Ptr, alg: Alg<A>)
    requires Parts(x, Build(s, g, cg, a, b), m, root, alg) && OnlyOn(m, m', {g, Root(a), Root(b)})
    requires g in m && m'[g] == m[g].(black := cg')
    requires a.Node? ==> a.ptr in m && m'[a.ptr] == m[a.ptr].(black := ca)
    requires b.Node? ==> b.ptr in m && m'[b.ptr] == m[b.ptr].(black := cb)
    ensures Parts(x, Build(s, g, cg', Paint(a, ca), Paint(b, cb)), m', root, alg)
  {
    var t, t' := Build(s, g, cg, a, b), Build(s, g, cg', Paint(a, ca), Paint(b, cb));
    PartsTop(x, t, m, root, alg);
    PartsKeys(x, t, m, root, alg);
    BuildDistinct(s, g, cg, a, b);
    hide Linked, Distinct, Right, Ptrs, Build, Paint, LinkedCtx, RightCtx, CtxDistinct, OnlyOn, CtxPtrs, Law;
    var w := {g, Root(a), Root(b)};
    RootIn(a);
    RootIn(b);
    SameFrom(m, m', w, Ptrs(a) - {Root(a)});
    SameFrom(m, m', w, Ptrs(b) - {Root(b)});
    SameFrom(m, m', w, CtxPtrs(x));
    KeptKeys(m, m', w, if a.Node? then a.ptr else g);
    KeptKeys(m, m', w, if b.Node? then b.ptr else g);
    KeptKeys(m, m', w, g);
    RecolourLinks(m, m', alg, TopPtr(x, NULL), s, g, cg, cg', a, ca, b, cb);
    BuildRoot(s, g, cg', Paint(a, ca), Paint(b, cb));
    if x.Up? { SameKid(m, x.ptr, x.side); }
    Exchange(x, t, t', m, m', root, root, alg);
  }

  lemma {:induction false} BuildRoot(s: Side, p: Ptr, c: bool, near: Tree, far: Tree)
    ensures var t := Build(s, p, c, near, far);
            t.Node? && Root(t) == t.ptr == p && t.black == c && Near(t, s) == near && Far(t, s) == far
  {
  }

  lemma {:induction false} SameKid<A>(m: Arena<A>, p: Ptr, s: Side)
    requires p in m
    ensures WithKid(m[p], s, KidOf(m[p], s)) == m[p]
  {
  }

  lemma {:induction false} KeptKeys<A>(m: Arena<A>, m': Arena<A>, w: set<Ptr>, p: Ptr)
    requires OnlyOn(m, m', w) && p in m
    ensures p in m'
  {
  }


  /** A subtree has been exchanged; the summaries above it are still those of before. */
  ghost predicate Spliced<A>(x: Ctx, t: Tree, m: Arena<A>, root: Ptr, alg: Alg<A>) {
    && Linked(t, m, TopPtr(x, NULL)) && LinkedCtx(x, m, root, NULL, Root(t)) && Right(t, m, alg)
    && Distinct(t) && CtxDistinct(x) && Ptrs(t) !! CtxPtrs(x) && Law(alg)
    && (x.Up? ==> Pending(x.up, Build(x.side, x.ptr, x.black, t, x.other), m, root, NULL, alg))
  }

  lemma {:induction false} SplicedFacts<A>(x: Ctx, t: Tree, m: Arena<A>, root: Ptr, alg: Alg<A>)
    requires Spliced(x, t, m, root, alg)
    ensures Linked(t, m, TopPtr(x, NULL)) && LinkedCtx(x, m, root, NULL, Root(t)) && Right(t, m, alg)
    ensures Distinct(t) && CtxDistinct(x) && Ptrs(t) !! CtxPtrs(x) && Law(alg)
    ensures x.Up? ==> Pending(x.up, Build(x.side, x.ptr, x.black, t, x.other), m, root, NULL, alg) && x.ptr != NULL
  {
  }

  lemma {:induction false} PendingFacts<A>(x: Ctx, t: Tree, m: Arena<A>, root: Ptr, stop: Ptr, alg: Alg<A>)
    requires Pending(x, t, m, root, stop, alg)
    ensures t.Node? && t.ptr in m && t.ptr != NULL && m[t.ptr].parent == TopPtr(x, stop)
      && (x.Up? ==> x.ptr != stop && x.ptr in CtxPtrs(x) && x.ptr != t.ptr)
    ensures x.Up? ==> CtxPtrs(x.up) <= CtxPtrs(x)
  {
  }

  lemma {:induction false} PlugUp(x: Ctx, t: Tree)
    requires x.Up?
    ensures Plug(x, t) == Plug(x.up, Build(x.side, x.ptr, x.black, t, x.other))
  {
  }

  lemma {:induction false} PlugTop(t: Tree)
    ensures Plug(Top, t) == t
  {
  }

  lemma {:induction false} PaintRoot(t: Tree, c: bool)
    ensures Root(Paint(t, c)) == Root(t)
  {
  }

  lemma {:induction false} SumsSame<A>(m: Arena<A>)
    ensures Sums(m, m, {})
  {
  }

  /** What taking out a node with one child reads. */
  lemma {:induction false} OneFacts<A>(x: Ctx, s: Side, n: Ptr, c: bool, k: Tree, m: Arena<A>, root: Ptr, alg: Alg<A>)
    requires Parts(x, Build(s, n, c, Leaf, k), m, root, alg)
    ensures n in m && n != NULL && m[n].parent == TopPtr(x, NULL) && m[n].black == c && (Root(k) != NULL <==> k.Node?)
      && Root(k) == (if k.Node? then k.ptr else NULL)
    ensures k.Node? ==> k.ptr in m && k.ptr != TopPtr(x, NULL) && k.ptr != n
    ensures TopPtr(x, NULL) != NULL <==> x.Up?
    ensures x.Up? ==> x.ptr in m && (if m[x.ptr].left == n then L else R) == x.side
  {
    PartsTop(x, Build(s, n, c, Leaf, k), m, root, alg);
    BuildRoot(s, n, c, Leaf, k);
    FlipFacts(x, s, n, c, Leaf, k, m, root, alg);
    hide Parts;
    if x.Up? { WhichSide(m[x.ptr], x.side, n); }
  }

  /** A node with at most one child: the child is red under a black node, so it can take the colour. */
  lemma {:induction false} SpliceBalance(x: Ctx, s: Side, n: Ptr, c: bool, k: Tree)
    requires RedBlack(Plug(x, Build(s, n, c, Leaf, k)))
    ensures k.Node? ==> RedBlack(Plug(x, Paint(k, c)))
    ensures k.Leaf? ==> Paint(k, c) == Leaf && if c && x.Up? then BlackShort(x, Leaf, 0) else RedBlack(Plug(x, Leaf))
  {
    var t := Build(s, n, c, Leaf, k);
    var h := Unplug(x, t);
    BuildBalance(s, n, c, Leaf, k, h);
    assert Bal(Leaf, h - Count(c)) && h == Count(c);
    if k.Node? {
      if IsBlack(k) { BalZero(k); }
      BalZero(k.left);
      BalZero(k.right);
      Replug(x, Paint(k, c), h);
    } else if !(c && x.Up?) {
      if c { assert CtxBal(x, 0); }
      Replug(x, Leaf, 0);
    }
  }

  /** A subtree of black height 0 under a red node is a leaf. */
  lemma {:induction false} BalZero(t: Tree)
    requires Bal(t, 0) && IsBlack(t)
    ensures t == Leaf
  {
    if t.Node? { BalPositive(t.left, -1); }
  }

  lemma {:induction false} LeftFacts<A>(y: Ctx, s: Tree, r: Tree, m: Arena<A>, n: Ptr)
    requires s.Node? && r == Plug(y, s) && Linked(r, m, n)
    ensures s.ptr in m && s.ptr != NULL && m[s.ptr].left == Root(s.left) && (s.left.Node? <==> Root(s.left) != NULL)
    ensures s.left.Node? ==> Plug(Up(L, s.ptr, s.black, s.right, y), s.left) == r
  {
    PlugLinked(y, s, m, Root(r), n);
    assert s == Build(L, s.ptr, s.black, s.left, s.right);
  }

  /** What taking out the successor reads. */
  lemma {:induction false} DetachReads<A>(y: Ctx, n: Ptr, sp: Ptr, cs: bool, c2: Tree, m: Arena<A>, alg: Alg<A>)
    requires n in m && AllLeft(y)
    requires var r := Plug(y, Node(sp, cs, Leaf, c2)); Linked(r, m, n) && Distinct(r)
    ensures sp in m && m[sp].right == Root(c2) && m[sp].left == NULL && m[sp].black == cs
    ensures y.Top? ==> Root(Plug(y, Node(sp, cs, Leaf, c2))) == sp
    ensures y.Up? ==>
        y.side == L && y.ptr in m && Last(y) in m && Root(Plug(y, Node(sp, cs, Leaf, c2))) == Last(y) && y.ptr != sp
        && Last(y) != sp && y.ptr != NULL
    ensures y.Up? ==>
        Plug(y, c2) == Plug(y.up, Node(y.ptr, y.black, c2, y.other)) && CtxPtrs(y) >= {y.ptr} + CtxPtrs(y.up)
  {
    var s := Node(sp, cs, Leaf, c2);
    PlugLinked(y, s, m, Root(Plug(y, s)), n);
    if y.Up? {
      PlugRoot(y, s);
      DetachSets(y, sp, cs, c2);
      LinkedCtxKeys(y, m, Last(y), n, sp);
    }
  }

  lemma {:induction false} DetachTop<A>(n: Ptr, sp: Ptr, cs: bool, c2: Tree, m: Arena<A>, m1: Arena<A>, alg: Alg<A>)
    requires n in m && sp in m && m1 == m[sp := m[sp].(aug := m[n].aug)]
    requires var r := Plug(Top, Node(sp, cs, Leaf, c2)); Distinct(r) && Right(r, m, alg)
    ensures Detached(Top, n, sp, c2, m, m1, alg)
  {
    FrameAugs(c2, m, m1, alg);
    assert Plug(Top, c2) == c2;
  }

  /** What putting the successor in place reads, and that the nodes involved are different ones. */
  lemma {:induction false} SeatFacts<A>(x: Ctx, n: Ptr, c: bool, l: Tree, y: Ctx, sp: Ptr, cs: bool, c2: Tree,
      m: Arena<A>, m1: Arena<A>, root: Ptr, alg: Alg<A>)
    requires Parts(x, Node(n, c, l, Plug(y, Node(sp, cs, Leaf, c2))), m, root, alg)
      && Detached(y, n, sp, c2, m, m1, alg) && l.Node?
    ensures m1.Keys == m.Keys && n in m1 && sp in m1 && n != sp && n != NULL && sp != NULL && m1[n].left == l.ptr
      && l.ptr in m1 && l.ptr != NULL
    ensures m1[n].parent == TopPtr(x, NULL) && m1[n].black == c && m1[sp].black == cs
    ensures l.ptr !in {n, sp} && (c2.Node? ==> c2.ptr in m1 && c2.ptr !in {n, sp, l.ptr, NULL})
      && (c2.Leaf? <==> Root(c2) == NULL) && (c2.Node? ==> Root(c2) == c2.ptr)
  {
    var s := Node(sp, cs, Leaf, c2);
    var t := Node(n, c, l, Plug(y, s));
    PartsTop(x, t, m, root, alg);
    PartsKeys(x, t, m, root, alg);
    PlugLinked(y, s, m, Root(Plug(y, s)), n);
    PlugDistinct(y, s);
    RootColour(l, m, n);
    if c2.Node? { RootColour(c2, m, sp); }
    if y.Up? { assert Last(y) in CtxPtrs(y) && y.ptr in CtxPtrs(y); }
    hide Parts, Plug, Linked, LinkedCtx, Right;
    assert LinkOf(m1[n]) == LinkOf(m[n]);
  }

  lemma {:induction false} SeatParent<A>(x: Ctx, n: Ptr, c: bool, l: Tree, y: Ctx, sp: Ptr, cs: bool, c2: Tree,
      m: Arena<A>, m1: Arena<A>, root: Ptr, alg: Alg<A>)
    requires Parts(x, Node(n, c, l, Plug(y, Node(sp, cs, Leaf, c2))), m, root, alg)
      && Detached(y, n, sp, c2, m, m1, alg) && l.Node?
    ensures x.Up? <==> TopPtr(x, NULL) != NULL
    ensures x.Up? ==>
        x.ptr in m1 && x.ptr !in {n, sp, l.ptr, Root(c2)} && m1[x.ptr].left == m[x.ptr].left
        && (if m1[x.ptr].left == n then L else R) == x.side
  {
    var s := Node(sp, cs, Leaf, c2);
    var t := Node(n, c, l, Plug(y, s));
    PartsTop(x, t, m, root, alg);
    PartsKeys(x, t, m, root, alg);
    PlugDistinct(y, s);
    if y.Up? { assert Last(y) in CtxPtrs(y) && y.ptr in CtxPtrs(y); }
    if x.Up? { WhichSide(m[x.ptr], x.side, n); }
    hide Parts, Plug, Linked, LinkedCtx, Right;
    if x.Up? { assert LinkOf(m1[x.ptr]) == LinkOf(m[x.ptr]); }
  }

  /** All links are in place. */
  lemma {:induction false} SeatDone<A>(x: Ctx, n: Ptr, c: bool, l: Tree, y: Ctx, sp: Ptr, cs: bool, c2: Tree,
      m: Arena<A>, m1: Arena<A>, m2: Arena<A>, m3: Arena<A>, m': Arena<A>, root: Ptr, root': Ptr, alg: Alg<A>)
    requires Parts(x, Node(n, c, l, Plug(y, Node(sp, cs, Leaf, c2))), m, root, alg)
      && Detached(y, n, sp, c2, m, m1, alg) && l.Node?
    requires sp in m1 && l.ptr in m1 && l.ptr != sp
    requires m2 == m1[sp := m1[sp].(left := l.ptr)][l.ptr := m1[l.ptr].(parent := sp)]
    requires if x.Up? then root' == root && x.ptr in m2 && m3 == m2[x.ptr := WithKid(m2[x.ptr], x.side, sp)]
        else root' == sp && m3 == m2
    requires sp in m3 && (c2.Node? ==> c2.ptr in m3 && c2.ptr != sp)
    requires var v := m3[sp := m3[sp].(parent := TopPtr(x, NULL), black := c)];
             m' == if c2.Node? then v[c2.ptr := v[c2.ptr].(parent := TopPtr(y, sp), black := true)] else v
    ensures SwapsLinks(x, c, l, y, sp, c2, m, m', root, root')
    ensures m'.Keys == m1.Keys && SameAugs(m1, m', m1.Keys)
  {
    SeatReads(x, n, c, l, y, sp, cs, c2, m, root, alg);
    SeatSets(n, c, l, y, sp, cs, c2, PartsSets(x, Node(n, c, l, Plug(y, Node(sp, cs, Leaf, c2))), m, root, alg),
          TopPtr(x, NULL));
    SeatKeys(y, n, sp, c2, m, m1, alg);
    hide Parts, Plug, Ptrs, CtxPtrs, Last, LinkOf, WithKid, Detached, SameLinks, LinksElsewhere, SameAugs, Seats;
    SeatLinks(x, c, l.ptr, TopPtr(y, sp), sp, Root(c2), m1, m2, m3, m');
    SeatSameAugs(x, c, l.ptr, TopPtr(y, sp), sp, Root(c2), m1, m');
    SeatBeside(x, n, c, l, y, sp, cs, c2, m, m1, m', root, alg);
    SeatSpine(x, n, c, l, y, sp, cs, c2, m, m1, m', root, alg);
  }

  lemma {:induction false} SeatKeys<A>(y: Ctx, n: Ptr, sp: Ptr, c2: Tree, m: Arena<A>, m1: Arena<A>, alg: Alg<A>)
    requires Detached(y, n, sp, c2, m, m1, alg)
    ensures m1.Keys == m.Keys
  {
  }

  /** The last writes, link by link. */
  ghost predicate Seats<A>(x: Ctx, c: bool, lp: Ptr, up2: Ptr, sp: Ptr, cp: Ptr, m1: Arena<A>, m': Arena<A>) {
    && m'.Keys == m1.Keys && SameAugs(m1, m', m1.Keys) && sp in m1 && lp in m1 && (cp != NULL ==> cp in m1)
    && (x.Up? ==> x.ptr in m1)
    && LinkOf(m'[sp]) == LinkOf(m1[sp]).(parent := TopPtr(x, NULL), black := c, left := lp)
    && LinkOf(m'[lp]) == LinkOf(m1[lp]).(parent := sp)
    && (cp != NULL ==> LinkOf(m'[cp]) == LinkOf(m1[cp]).(parent := up2, black := true))
    && (x.Up? ==> LinkOf(m'[x.ptr]) == LinkOf(WithKid(m1[x.ptr], x.side, sp)))
    && LinksElsewhere(m1, m', {sp, lp, cp, TopPtr(x, NULL)})
  }

  lemma {:induction false} SeatsSp<A>(x: Ctx, c: bool, lp: Ptr, up2: Ptr, sp: Ptr, cp: Ptr, m1: Arena<A>, m': Arena<A>)
    requires Seats(x, c, lp, up2, sp, cp, m1, m')
    ensures sp in m1 && sp in m' && LinkOf(m'[sp]) == LinkOf(m1[sp]).(parent := TopPtr(x, NULL), black := c, left := lp)
  {
  }

  lemma {:induction false} SeatsKept<A>(x: Ctx, c: bool, lp: Ptr, up2: Ptr, sp: Ptr, cp: Ptr, m1: Arena<A>,
      m': Arena<A>, q: Ptr)
    requires Seats(x, c, lp, up2, sp, cp, m1, m') && q in m1 && q != sp && q != lp && q != cp && q != TopPtr(x, NULL)
    ensures q in m' && LinkOf(m'[q]) == LinkOf(m1[q])
  {
  }

  lemma {:induction false} SeatSameAugs<A>(x: Ctx, c: bool, lp: Ptr, up2: Ptr, sp: Ptr, cp: Ptr, m1: Arena<A>,
      m': Arena<A>)
    requires Seats(x, c, lp, up2, sp, cp, m1, m')
    ensures m'.Keys == m1.Keys && SameAugs(m1, m', m1.Keys)
  {
  }

  /** The links of the left subtree, the successor's child and the context. */
  lemma {:induction false} SeatBeside<A>(x: Ctx, n: Ptr, c: bool, l: Tree, y: Ctx, sp: Ptr, cs: bool, c2: Tree,
      m: Arena<A>, m1: Arena<A>, m': Arena<A>, root: Ptr, alg: Alg<A>)
    requires Parts(x, Node(n, c, l, Plug(y, Node(sp, cs, Leaf, c2))), m, root, alg)
      && Detached(y, n, sp, c2, m, m1, alg) && l.Node?
    requires Seats(x, c, l.ptr, TopPtr(y, sp), sp, Root(c2), m1, m')
    ensures l.ptr in m && l.ptr in m' && LinkOf(m'[l.ptr]) == LinkOf(m[l.ptr]).(parent := sp)
    ensures c2.Node? ==>
        c2.ptr in m && c2.ptr in m' && LinkOf(m'[c2.ptr]) == LinkOf(m[c2.ptr]).(parent := TopPtr(y, sp), black := true)
    ensures x.Up? ==> x.ptr in m && x.ptr in m' && LinkOf(m'[x.ptr]) == LinkOf(WithKid(m[x.ptr], x.side, sp))
    ensures SameLinks(m, m', Ptrs(l) - {Root(l)}) && SameLinks(m, m', Ptrs(c2) - {Root(c2)})
      && SameLinks(m, m', CtxPtrs(x) - {TopPtr(x, NULL)})
  {
    SeatReads(x, n, c, l, y, sp, cs, c2, m, root, alg);
    var k := PartsSets(x, Node(n, c, l, Plug(y, Node(sp, cs, Leaf, c2))), m, root, alg);
    SeatSets(n, c, l, y, sp, cs, c2, k, TopPtr(x, NULL));
    RootIn(l);
    RootIn(c2);
    hide Parts, Plug, Ptrs, CtxPtrs, Last, LinkOf, WithKid, SameLinks, SameAugs, Seats;
    OldLinks(y, n, sp, c2, m, m1, alg, Ptrs(l));
    OldLinks(y, n, sp, c2, m, m1, alg, Ptrs(c2));
    OldLinks(y, n, sp, c2, m, m1, alg, k);
    hide Detached;
    NewLinks(x, c, l.ptr, TopPtr(y, sp), sp, Root(c2), m, m1, m', Ptrs(l), Ptrs(l) - {l.ptr});
    NewLinks(x, c, l.ptr, TopPtr(y, sp), sp, Root(c2), m, m1, m', Ptrs(c2), Ptrs(c2) - {Root(c2)});
    NewLinks(x, c, l.ptr, TopPtr(y, sp), sp, Root(c2), m, m1, m', k, k - {TopPtr(x, NULL)});
    SeatThree(x, c, l.ptr, TopPtr(y, sp), sp, Root(c2), m, m1, m', Ptrs(l), Ptrs(c2), k);
  }

  /** Taking out the successor left the links of `s`. */
  lemma {:induction false} OldLinks<A>(y: Ctx, n: Ptr, sp: Ptr, c2: Tree, m: Arena<A>, m1: Arena<A>, alg: Alg<A>,
      s: set<Ptr>)
    requires Detached(y, n, sp, c2, m, m1, alg) && CtxPtrs(y) !! s && sp !in s
      && (y.Up? ==> y.ptr in CtxPtrs(y) && Last(y) in CtxPtrs(y))
    ensures SameLinks(m, m1, s) && m1.Keys == m.Keys
  {
  }

  lemma {:induction false} NewLinks<A>(x: Ctx, c: bool, lp: Ptr, up2: Ptr, sp: Ptr, cp: Ptr, m: Arena<A>, m1: Arena<A>,
      m': Arena<A>, s0: set<Ptr>, s: set<Ptr>)
    requires Seats(x, c, lp, up2, sp, cp, m1, m') && SameLinks(m, m1, s0) && s <= s0 && m1.Keys == m.Keys
      && s !! {sp, lp, cp, TopPtr(x, NULL)}
    ensures SameLinks(m, m', s)
  {
  }

  lemma {:induction false} SeatThree<A>(x: Ctx, c: bool, lp: Ptr, up2: Ptr, sp: Ptr, cp: Ptr, m: Arena<A>, m1: Arena<A>,
      m': Arena<A>, a: set<Ptr>, b: set<Ptr>, k: set<Ptr>)
    requires Seats(x, c, lp, up2, sp, cp, m1, m') && SameLinks(m, m1, a) && SameLinks(m, m1, b) && SameLinks(m, m1, k)
      && m1.Keys == m.Keys
    requires lp in a && (cp != NULL ==> cp in b) && (x.Up? ==> x.ptr in k)
    ensures lp in m && lp in m' && LinkOf(m'[lp]) == LinkOf(m[lp]).(parent := sp)
    ensures cp != NULL ==> cp in m && cp in m' && LinkOf(m'[cp]) == LinkOf(m[cp]).(parent := up2, black := true)
    ensures x.Up? ==> x.ptr in m && x.ptr in m' && LinkOf(m'[x.ptr]) == LinkOf(WithKid(m[x.ptr], x.side, sp))
  {
    if x.Up? { KidAlike(m[x.ptr], m1[x.ptr], x.side, sp); }
  }

  /** The links of the successor and of the path down to where it was. */
  lemma {:induction false} SeatSpine<A>(x: Ctx, n: Ptr, c: bool, l: Tree, y: Ctx, sp: Ptr, cs: bool, c2: Tree,
      m: Arena<A>, m1: Arena<A>, m': Arena<A>, root: Ptr, alg: Alg<A>)
    requires Parts(x, Node(n, c, l, Plug(y, Node(sp, cs, Leaf, c2))), m, root, alg)
      && Detached(y, n, sp, c2, m, m1, alg) && l.Node?
    requires Seats(x, c, l.ptr, TopPtr(y, sp), sp, Root(c2), m1, m')
    ensures sp in m' && LinkOf(m'[sp]) == Link(TopPtr(x, NULL), c, l.ptr, if y.Up? then Last(y) else Root(c2))
    ensures y.Up? ==> y.ptr in m && y.ptr in m' && Last(y) in m && Last(y) in m'
    ensures y.Up? && y.up.Top? ==> LinkOf(m'[y.ptr]) == LinkOf(WithKid(m[y.ptr], y.side, Root(c2))).(parent := sp)
    ensures y.Up? && y.up.Up? ==>
        LinkOf(m'[y.ptr]) == LinkOf(WithKid(m[y.ptr], y.side, Root(c2)))
        && LinkOf(m'[Last(y)]) == LinkOf(m[Last(y)]).(parent := sp)
    ensures y.Up? ==> SameLinks(m, m', CtxPtrs(y) - {y.ptr, Last(y)})
  {
    SeatReads(x, n, c, l, y, sp, cs, c2, m, root, alg);
    var k := PartsSets(x, Node(n, c, l, Plug(y, Node(sp, cs, Leaf, c2))), m, root, alg);
    SeatSets(n, c, l, y, sp, cs, c2, k, TopPtr(x, NULL));
    hide Parts, Plug, Ptrs, CtxPtrs, Last, WithKid, LinkOf, SameLinks, Seats, Detached, LinksElsewhere;
    DetachedTop(y, n, sp, c2, m, m1, alg);
    SeatsSp(x, c, l.ptr, TopPtr(y, sp), sp, Root(c2), m1, m');
    SeatSp(y, n, sp, cs, c2, l.ptr, TopPtr(x, NULL), c, m, m1, m');
    if y.Up? {
      SeatsKept(x, c, l.ptr, TopPtr(y, sp), sp, Root(c2), m1, m', y.ptr);
      SeatsKept(x, c, l.ptr, TopPtr(y, sp), sp, Root(c2), m1, m', Last(y));
      NewLinks(x, c, l.ptr, TopPtr(y, sp), sp, Root(c2), m, m1, m', CtxPtrs(y) - {y.ptr, Last(y)},
            CtxPtrs(y) - {y.ptr, Last(y)});
    }
  }

  lemma {:induction false} DetachedTop<A>(y: Ctx, n: Ptr, sp: Ptr, c2: Tree, m: Arena<A>, m1: Arena<A>, alg: Alg<A>)
    requires Detached(y, n, sp, c2, m, m1, alg)
    ensures y.Up? ==> y.ptr in m && Last(y) in m && y.ptr in m1 && Last(y) in m1
    ensures sp in m && sp in m1 && m1.Keys == m.Keys
      && LinkOf(m1[sp]) == (if y.Up? then LinkOf(m[sp]).(right := Last(y)) else LinkOf(m[sp]))
    ensures y.Up? && sp !in CtxPtrs(y) ==> SameLinks(m, m1, CtxPtrs(y) - {y.ptr, Last(y)})
    ensures y.Up? && y.up.Top? ==> LinkOf(m1[y.ptr]) == LinkOf(WithKid(m[y.ptr], y.side, Root(c2))).(parent := sp)
    ensures y.Up? && y.up.Up? ==>
        LinkOf(m1[y.ptr]) == LinkOf(WithKid(m[y.ptr], y.side, Root(c2)))
        && LinkOf(m1[Last(y)]) == LinkOf(m[Last(y)]).(parent := sp)
  {
  }

  lemma {:induction false} SeatSp<A>(y: Ctx, n: Ptr, sp: Ptr, cs: bool, c2: Tree, lp: Ptr, top: Ptr, c: bool,
      m: Arena<A>, m1: Arena<A>, m': Arena<A>)
    requires sp in m && sp in m1 && sp in m' && LinkOf(m[sp]) == Link(TopPtr(y, n), cs, NULL, Root(c2))
    requires LinkOf(m1[sp]) == (if y.Up? then LinkOf(m[sp]).(right := Last(y)) else LinkOf(m[sp]))
    requires LinkOf(m'[sp]) == LinkOf(m1[sp]).(parent := top, black := c, left := lp)
    ensures LinkOf(m'[sp]) == Link(top, c, lp, if y.Up? then Last(y) else Root(c2))
  {
  }

  ghost predicate LinksElsewhere<A>(m: Arena<A>, m': Arena<A>, w: set<Ptr>) {
    m'.Keys == m.Keys && forall q :: q in m && q !in w ==> LinkOf(m'[q]) == LinkOf(m[q])
  }

  /** The set of the nodes around a subtree. */
  ghost function PartsSets<A>(x: Ctx, t: Tree, m: Arena<A>, root: Ptr, alg: Alg<A>): (k: set<Ptr>)
    requires Parts(x, t, m, root, alg)
    ensures k == CtxPtrs(x) && NULL !in k && k !! Ptrs(t) && Distinct(t) && NULL !in Ptrs(t) && (x.Up? ==> x.ptr in k)
  {
    PartsKeys(x, t, m, root, alg);
    CtxPtrs(x)
  }

  lemma {:induction false} SeatReads<A>(x: Ctx, n: Ptr, c: bool, l: Tree, y: Ctx, sp: Ptr, cs: bool, c2: Tree,
      m: Arena<A>, root: Ptr, alg: Alg<A>)
    requires Parts(x, Node(n, c, l, Plug(y, Node(sp, cs, Leaf, c2))), m, root, alg) && l.Node?
    ensures sp in m && LinkOf(m[sp]) == Link(TopPtr(y, n), cs, NULL, Root(c2)) && l.ptr in m
      && (c2.Node? ==> c2.ptr in m)
    ensures x.Up? ==> x.ptr in m
    ensures y.Up? ==> y.ptr in m && Last(y) in m
  {
    var s := Node(sp, cs, Leaf, c2);
    PlugLinked(y, s, m, Root(Plug(y, s)), n);
    LinkedCtxKeys(y, m, Root(Plug(y, s)), n, sp);
    if x.Up? { LinkedTop(x, m, root, n); }
    if c2.Node? { RootColour(c2, m, sp); }
    RootColour(l, m, n);
  }

  lemma {:induction false} KidAlike<A>(n: RbNode<A>, n': RbNode<A>, s: Side, k: Ptr)
    requires LinkOf(n) == LinkOf(n')
    ensures LinkOf(WithKid(n, s, k)) == LinkOf(WithKid(n', s, k))
  {
  }

  /** The last writes, node by node. */
  lemma {:induction false} SeatLinks<A>(x: Ctx, c: bool, lp: Ptr, up2: Ptr, sp: Ptr, cp: Ptr, m1: Arena<A>,
      m2: Arena<A>, m3: Arena<A>, m': Arena<A>)
    requires sp in m1 && lp in m1 && lp != sp && (x.Up? ==> x.ptr in m1 && x.ptr !in {sp, lp, cp})
      && (cp != NULL ==> cp in m1 && cp !in {sp, lp})
    requires m2 == m1[sp := m1[sp].(left := lp)][lp := m1[lp].(parent := sp)]
    requires if x.Up? then m3 == m2[x.ptr := WithKid(m2[x.ptr], x.side, sp)] else m3 == m2
    requires var v := m3[sp := m3[sp].(parent := TopPtr(x, NULL), black := c)];
             m' == if cp != NULL then v[cp := v[cp].(parent := up2, black := true)] else v
    ensures Seats(x, c, lp, up2, sp, cp, m1, m')
  {
  }

  /** The nodes involved, and the sets of those that are not. */
  lemma {:induction false} SeatSets(n: Ptr, c: bool, l: Tree, y: Ctx, sp: Ptr, cs: bool, c2: Tree, k: set<Ptr>,
      top: Ptr)
    requires var t := Node(n, c, l, Plug(y, Node(sp, cs, Leaf, c2)));
            Distinct(t) && k !! Ptrs(t) && NULL !in k && NULL !in Ptrs(t) && (top == NULL || top in k)
    requires l.Node?
    ensures var w := {sp, l.ptr, Root(c2), top};
            && (Ptrs(l) - {l.ptr}) !! w && (Ptrs(c2) - {Root(c2)}) !! w && (k - {top}) !! w && CtxPtrs(y) !! w
    ensures CtxPtrs(y) !! Ptrs(l) && CtxPtrs(y) !! Ptrs(c2) && CtxPtrs(y) !! k
      && sp !in Ptrs(l) + Ptrs(c2) + k + CtxPtrs(y)
    ensures y.Up? ==> y.ptr in CtxPtrs(y) && Last(y) in CtxPtrs(y)
    ensures l.ptr !in {sp, Root(c2), top, NULL} && Root(c2) != sp && sp != NULL
      && (c2.Node? ==> Root(c2) == c2.ptr != NULL) && (c2.Leaf? ==> Root(c2) == NULL)
    ensures top != NULL ==> top !in {sp, l.ptr, Root(c2)}
  {
    PlugDistinct(y, Node(sp, cs, Leaf, c2));
    RootIn(l);
    RootIn(c2);
    assert sp !in Ptrs(c2) && Ptrs(Plug(y, Node(sp, cs, Leaf, c2))) == CtxPtrs(y) + ({sp} + Ptrs(c2));
    assert Ptrs(Node(n, c, l, Plug(y, Node(sp, cs, Leaf, c2)))) == Ptrs(l) + {n}
        + Ptrs(Plug(y, Node(sp, cs, Leaf, c2)));
    FiveSets(Ptrs(l), l.ptr, Ptrs(c2), Root(c2), CtxPtrs(y), sp, k, top);
    hide *;
  }

  lemma {:induction false} FiveSets(a: set<Ptr>, p: Ptr, b: set<Ptr>, q: Ptr, y: set<Ptr>, sp: Ptr, k: set<Ptr>,
      top: Ptr)
    requires p in a && (if q == NULL then b == {} else q in b) && (top == NULL || top in k)
      && NULL !in a + b + y + k + {sp}
    requires a !! b && a !! y && a !! k && b !! y && b !! k && y !! k && sp !in a + b + y + k
    ensures var w := {sp, p, q, top}; (a - {p}) !! w && (b - {q}) !! w && (k - {top}) !! w && y !! w
    ensures p !in {sp, q, top, NULL} && q != sp && (top != NULL ==> top !in {sp, p, q})
  {
  }

  lemma {:induction false} TwoFacts<A>(x: Ctx, n: Ptr, c: bool, l: Tree, r: Tree, m: Arena<A>, root: Ptr, alg: Alg<A>)
    requires Parts(x, Node(n, c, l, r), m, root, alg)
    ensures n in m && Linked(r, m, n) && Distinct(r) && Right(r, m, alg)
  {
  }

  lemma {:induction false} ChildFacts<A>(x: Ctx, n: Ptr, c: bool, l: Tree, r: Tree, m: Arena<A>, root: Ptr, alg: Alg<A>)
    requires Parts(x, Node(n, c, l, r), m, root, alg)
    ensures n in m && m[n].left == Root(l) && m[n].right == Root(r) && (l.Node? <==> Root(l) != NULL)
      && (r.Node? <==> Root(r) != NULL)
    ensures (l.Node? ==> Root(l) == l.ptr) && (r.Node? ==> Root(r) == r.ptr)
  {
    PartsKeys(x, Node(n, c, l, r), m, root, alg);
  }

  /** Only the node is missing from the sequence. */
  lemma {:induction false} SpliceOrder(x: Ctx, k: Tree, c: bool, l: Tree, r: Tree)
    requires (l == Leaf && k == r) || (r == Leaf && k == l)
    ensures InOrder(Plug(x, Paint(k, c))) == Ahead(x) + (InOrder(l) + InOrder(r)) + Behind(x)
  {
    PaintKeeps(k, c);
    PlugOrder(x, Paint(k, c));
    assert [] + InOrder(k) == InOrder(k) == InOrder(k) + [];
  }

  lemma {:induction false} SwapOrder(x: Ctx, n: Ptr, c: bool, l: Tree, y: Ctx, sp: Ptr, cs: bool, c2: Tree)
    requires AllLeft(y)
    ensures InOrder(Plug(x, Node(sp, c, l, Without(y, c2)))) == Ahead(x)
        + (InOrder(l) + InOrder(Plug(y, Node(sp, cs, Leaf, c2)))) + Behind(x)
  {
    var s := Node(sp, cs, Leaf, c2);
    LeftAhead(y);
    PlugOrder(y, s);
    PlugOrder(y, Paint(c2, true));
    PaintKeeps(c2, true);
    PlugOrder(x, Node(sp, c, l, Without(y, c2)));
    var a, b := InOrder(c2), Behind(y);
    assert InOrder(s) == [sp] + a;
    SwapSeqs(InOrder(l), sp, a, b);
  }

  lemma {:induction false} SwapSeqs(l: seq<Ptr>, sp: Ptr, a: seq<Ptr>, b: seq<Ptr>)
    ensures l + [sp] + ([] + a + b) == l + ([] + ([sp] + a) + b)
  {
  }

  /** A context with another node in the place of one of its own. */
  lemma {:induction false} Renamed(y: Ctx, s: Side, n: Ptr, sp: Ptr, c: bool, o: Tree, x: Ctx, h: int)
    ensures CtxBal(Within(y, Up(s, sp, c, o, x)), h) == CtxBal(Within(y, Up(s, n, c, o, x)), h)
    ensures CtxRed(Within(y, Up(s, sp, c, o, x))) == CtxRed(Within(y, Up(s, n, c, o, x)))
    ensures TakesRed(Within(y, Up(s, sp, c, o, x))) == TakesRed(Within(y, Up(s, n, c, o, x)))
    decreases y
  {
    if y.Up? {
      Renamed(y.up, s, n, sp, c, o, x, h + Count(y.black));
    }
  }

  /**
   * Where the successor was, its right child, if any, is painted black; otherwise a black node may be missing there.
   */
  lemma {:induction false} SwapBalance(x: Ctx, n: Ptr, c: bool, l: Tree, y: Ctx, sp: Ptr, cs: bool, c2: Tree)
    requires RedBlack(Plug(x, Node(n, c, l, Plug(y, Node(sp, cs, Leaf, c2)))))
    ensures var z, t := Within(y, Up(R, sp, c, l, x)), Plug(x, Node(sp, c, l, Without(y, c2)));
            && z.Up? && z.ptr == TopPtr(y, sp) && (c2.Leaf? ==> t == Plug(z, Leaf))
            && if c2.Leaf? && cs then BlackShort(z, Leaf, 0) else RedBlack(t)
  {
    var w, z := Within(y, Up(R, n, c, l, x)), Within(y, Up(R, sp, c, l, x));
    var s := Node(sp, cs, Leaf, c2);
    PlugWithin(y, Up(R, n, c, l, x), s);
    PlugWithin(y, Up(R, sp, c, l, x), Paint(c2, true));
    assert Plug(w, s) == Plug(x, Node(n, c, l, Plug(y, s)));
    assert Plug(z, Paint(c2, true)) == Plug(x, Node(sp, c, l, Without(y, c2)));
    var h := Unplug(w, s);
    Renamed(y, R, n, sp, c, l, x, h);
    assert Bal(Leaf, h - Count(cs)) && h == Count(cs);
    if c2.Node? {
      if IsBlack(c2) { BalZero(c2); }
      BalZero(c2.left);
      BalZero(c2.right);
      Replug(z, Paint(c2, true), h);
    } else if !cs {
      Replug(z, Leaf, h);
    }
  }

  /** An exchanged subtree whose own summary is still to be computed, like those above it. */
  ghost predicate Swapped<A>(x: Ctx, t: Tree, m: Arena<A>, root: Ptr, alg: Alg<A>) {
    && Pending(x, t, m, root, NULL, alg) && Linked(t, m, TopPtr(x, NULL)) && LinkedCtx(x, m, root, NULL, t.ptr)
    && Distinct(t) && CtxDistinct(x) && Ptrs(t) !! CtxPtrs(x) && Law(alg)
  }

  lemma {:induction false} SwappedFacts<A>(x: Ctx, t: Tree, m: Arena<A>, root: Ptr, alg: Alg<A>)
    requires Swapped(x, t, m, root, alg)
    ensures Pending(x, t, m, root, NULL, alg) && t.Node? && t.ptr != NULL && Root(t) == t.ptr
    ensures Linked(t, m, TopPtr(x, NULL)) && LinkedCtx(x, m, root, NULL, t.ptr) && Distinct(t) && CtxDistinct(x)
      && Ptrs(t) !! CtxPtrs(x) && Law(alg)
  {
  }

  lemma {:induction false} SwapDone<A>(x: Ctx, n: Ptr, c: bool, l: Tree, y: Ctx, sp: Ptr, cs: bool, c2: Tree,
      m: Arena<A>, m1: Arena<A>, m': Arena<A>, root: Ptr, root': Ptr, alg: Alg<A>)
    requires Parts(x, Node(n, c, l, Plug(y, Node(sp, cs, Leaf, c2))), m, root, alg)
    requires Detached(y, n, sp, c2, m, m1, alg) && m'.Keys == m1.Keys && SameAugs(m1, m', m1.Keys)
    requires SwapsLinks(x, c, l, y, sp, c2, m, m', root, root')
    ensures Swapped(x, Node(sp, c, l, Without(y, c2)), m', root', alg)
  {
    hide Parts, Detached, SwapsLinks, SameAugs, Pending, Linked, LinkedCtx, Distinct, CtxDistinct, Ptrs, CtxPtrs, Law;
    SwapPending(x, n, c, l, y, sp, cs, c2, m, m1, m', root, root', alg);
  }

  /** The sequence without the node. */
  lemma {:induction false} ErasedOrder(x: Ctx, n: Ptr, c: bool, l: Tree, r: Tree)
    ensures var s := InOrder(Plug(x, Node(n, c, l, r))); var i := |Ahead(x)| + |InOrder(l)|;
            0 <= i < |s| && s[i] == n && s[..i] + s[i + 1..] == Ahead(x) + (InOrder(l) + InOrder(r)) + Behind(x)
  {
    PlugOrder(x, Node(n, c, l, r));
    assert InOrder(Node(n, c, l, r)) == InOrder(l) + [n] + InOrder(r);
    var s, a, b, q, p := InOrder(Plug(x, Node(n, c, l, r))), Ahead(x), Behind(x), InOrder(l), InOrder(r);
    hide *;
    DropOne(s, a, q, n, p, b);
  }

  lemma {:induction false} PtrsWithout(t: Tree, t': Tree, n: Ptr, q: seq<Ptr>)
    requires InOrder(t') == q && forall p :: p in Ptrs(t) && p != n <==> p in q
    ensures Ptrs(t') == Ptrs(t) - {n} && n !in q
  {
    PtrsInOrder(t');
  }

  /** The nodes without it. */
  lemma {:induction false} ErasedPtrs(x: Ctx, n: Ptr, c: bool, l: Tree, r: Tree)
    requires Distinct(Plug(x, Node(n, c, l, r)))
    ensures forall p ::
        p in Ptrs(Plug(x, Node(n, c, l, r))) && p != n <==> p in Ahead(x) + (InOrder(l) + InOrder(r)) + Behind(x)
  {
    var t := Node(n, c, l, r);
    PlugDistinct(x, t);
    assert Ptrs(t) == Ptrs(l) + {n} + Ptrs(r);
    hide Plug, InOrder;
    PtrsInOrder(l);
    PtrsInOrder(r);
    CtxInOrder(x);
    InConcat(Ahead(x), InOrder(l), InOrder(r), Behind(x));
  }

  lemma {:induction false} InConcat(a: seq<Ptr>, l: seq<Ptr>, r: seq<Ptr>, b: seq<Ptr>)
    ensures forall p :: p in a + (l + r) + b <==> p in a || p in l || p in r || p in b
  {
  }

  lemma {:induction false} DropOne(s: seq<Ptr>, a: seq<Ptr>, l: seq<Ptr>, n: Ptr, r: seq<Ptr>, b: seq<Ptr>)
    requires s == a + (l + [n] + r) + b
    ensures var i := |a| + |l|; i < |s| && s[i] == n && s[..i] + s[i + 1..] == a + (l + r) + b
  {
    var i := |a| + |l|;
    assert s[..i] == a + l && s[i + 1..] == r + b;
    assert (a + l) + (r + b) == a + (l + r) + b;
  }

  lemma {:induction false} CtxInOrder(x: Ctx)
    ensures forall p :: p in CtxPtrs(x) <==> p in Ahead(x) || p in Behind(x)
    decreases x
  {
    if x.Up? {
      CtxInOrder(x.up);
      PtrsInOrder(x.other);
    }
  }

  // ---- positions ----

  /** The subtree at a position. */
  lemma {:induction false} Locate(t: Tree, i: nat) returns (x: Ctx, c: bool, l: Tree, r: Tree)
    requires i < |InOrder(t)|
    ensures t == Plug(x, Node(InOrder(t)[i], c, l, r)) && |Ahead(x)| + |InOrder(l)| == i
  {
    var k := |InOrder(t.left)|;
    if i == k {
      x, c, l, r := Top, t.black, t.left, t.right;
    } else if i < k {
      x, c, l, r := Locate(t.left, i);
      LocateIn(x, Up(L, t.ptr, t.black, t.right, Top), Node(InOrder(t)[i], c, l, r));
      x := Within(x, Up(L, t.ptr, t.black, t.right, Top));
    } else {
      x, c, l, r := Locate(t.right, i - k - 1);
      assert InOrder(t)[i] == InOrder(t.right)[i - k - 1];
      LocateIn(x, Up(R, t.ptr, t.black, t.left, Top), Node(InOrder(t)[i], c, l, r));
      x := Within(x, Up(R, t.ptr, t.black, t.left, Top));
    }
  }

  lemma {:induction false} LocateIn(x: Ctx, y: Ctx, t: Tree)
    ensures Plug(Within(x, y), t) == Plug(y, Plug(x, t)) && |Ahead(Within(x, y))| == |Ahead(x)| + |Ahead(y)|
    decreases x
  {
    PlugWithin(x, y, t);
    if x.Up? {
      LocateIn(x.up, y, t);
    }
  }

  /** The neighbour at a position, towards the side `s`. */
  function Neighbour(q: seq<Ptr>, i: nat, s: Side): Ptr
    requires i < |q|
  {
    if s == R then (if i + 1 < |q| then q[i + 1] else NULL) else if i > 0 then q[i - 1] else NULL
  }

  lemma {:induction false} Inside(x: Ctx, t: Tree, i: nat, s: Side)
    requires t.Node? && |Ahead(x)| + |InOrder(t.left)| == i && Near(t, s).Node?
    ensures i < |InOrder(Plug(x, t))| && InOrder(Near(t, s)) != []
    ensures Neighbour(InOrder(Plug(x, t)), i, s) == if s == R then InOrder(Near(t, s))[0]
        else InOrder(Near(t, s))[|InOrder(Near(t, s))| - 1]
  {
    PlugOrder(x, t);
    assert InOrder(t) == InOrder(t.left) + [t.ptr] + InOrder(t.right);
  }

  /** The end of the subtree on the side `s` is at the position `i`. */
  predicate EdgeAt(x: Ctx, t: Tree, i: nat, s: Side) {
    if s == R then |Ahead(x)| + |InOrder(t)| == i + 1 else |Ahead(x)| == i
  }

  lemma {:induction false} AtEdge<A>(x: Ctx, t: Tree, i: nat, s: Side, m: Arena<A>, root: Ptr, alg: Alg<A>)
    requires t.Node? && Parts(x, t, m, root, alg) && |Ahead(x)| + |InOrder(t.left)| == i && t.ptr in m
      && KidOf(m[t.ptr], s) == NULL
    ensures EdgeAt(x, t, i, s)
    ensures TopPtr(x, NULL) != NULL ==> TopPtr(x, NULL) in m
  {
    PartsTop(x, t, m, root, alg);
    PartsKeys(x, t, m, root, alg);
    assert InOrder(t) == InOrder(t.left) + [t.ptr] + InOrder(t.right);
  }

  lemma {:induction false} ClimbFacts<A>(x: Ctx, t: Tree, i: nat, s: Side, m: Arena<A>, root: Ptr, alg: Alg<A>)
    requires t.Node? && Parts(x, t, m, root, alg) && TopPtr(x, NULL) != NULL && TopPtr(x, NULL) in m
      && t.ptr == KidOf(m[TopPtr(x, NULL)], s) && EdgeAt(x, t, i, s)
    ensures x.Up? && x.side == s
    ensures var t' := Build(s, x.ptr, x.black, t, x.other);
            Parts(x.up, t', m, root, alg) && EdgeAt(x.up, t', i, s) && Plug(x.up, t') == Plug(x, t)
    ensures TopPtr(x.up, NULL) != NULL ==> TopPtr(x.up, NULL) in m
  {
    PartsTop(x, t, m, root, alg);
    PartsUp(x, t, m, root, alg);
    BuildRoot(x.side, x.ptr, x.black, t, x.other);
    PartsTop(x.up, Build(x.side, x.ptr, x.black, t, x.other), m, root, alg);
    PlugUp(x, t);
    BuildOrder(x.side, x.ptr, x.black, t, x.other);
  }

  lemma {:induction false} ClimbEnd<A>(x: Ctx, t: Tree, i: nat, s: Side, m: Arena<A>, root: Ptr, alg: Alg<A>)
    requires t.Node? && Parts(x, t, m, root, alg) && EdgeAt(x, t, i, s)
    requires TopPtr(x, NULL) != NULL ==> TopPtr(x, NULL) in m && t.ptr != KidOf(m[TopPtr(x, NULL)], s)
    ensures i < |InOrder(Plug(x, t))| && TopPtr(x, NULL) == Neighbour(InOrder(Plug(x, t)), i, s)
  {
    PartsTop(x, t, m, root, alg);
    PlugOrder(x, t);
    assert InOrder(t) == InOrder(t.left) + [t.ptr] + InOrder(t.right);
    if x.Up? {
      assert x.side == Opp(s);
      if s == R {
        assert Behind(x)[0] == x.ptr;
      } else {
        assert Ahead(x)[|Ahead(x)| - 1] == x.ptr;
      }
    }
  }

  // ---- insertion ----

  lemma {:induction false} LinkReads<A>(x: Ctx, node: Ptr, m: Arena<A>, root: Ptr, alg: Alg<A>)
    requires Holds(Plug(x, Leaf), m, root, alg) && node !in Ptrs(Plug(x, Leaf))
    ensures x.Up? ==> x.ptr in m && x.ptr != NULL && x.ptr != node
  {
    HoldsParts(x, Leaf, m, root, alg);
    PlugDistinct(x, Leaf);
  }

  lemma {:induction false} LinkWritten<A>(x: Ctx, node: Ptr, m: Arena<A>, m': Arena<A>, root: Ptr, root': Ptr,
      alg: Alg<A>)
    requires Holds(Plug(x, Leaf), m, root, alg) && node !in Ptrs(Plug(x, Leaf)) && node != NULL
    requires var v := m[node := RbNode(TopPtr(x, NULL), false, NULL, NULL, alg.unit)];
             if x.Up? then root' == root && x.ptr in v && m' == v[x.ptr := WithKid(v[x.ptr], x.side, node)]
               else root' == node && m' == v
    ensures Swapped(x, Node(node, false, Leaf, Leaf), m', root', alg)
  {
    HoldsParts(x, Leaf, m, root, alg);
    PlugDistinct(x, Leaf);
    PartsKeys(x, Leaf, m, root, alg);
    hide Plug, Holds, Law;
    assert node !in CtxPtrs(x);
    if x.Up? { LinkedTop(x, m, root, NULL); }
    HoleLinks(x, m, m', root, root', NULL, NULL, node);
    assert SameAugs(m, m', CtxPtrs(x));
    FrameAugsCtx(x, m, m', alg, alg.unit);
    assert m'[node].aug == alg.unit && LinkOf(m'[node]) == Link(TopPtr(x, NULL), false, NULL, NULL);
    assert Ptrs(Node(node, false, Leaf, Leaf)) == {node};
    var t := Node(node, false, Leaf, Leaf);
    assert Ptrs(t) !! CtxPtrs(x) && Distinct(t);
    assert Linked(t, m', TopPtr(x, NULL)) && LinkedCtx(x, m', root', NULL, t.ptr);
    assert Pending(x, t, m', root', NULL, alg);
  }

  /** The empty place beside a node with no child on that side. */
  lemma {:induction false} LocateHole<A>(t: Tree, m: Arena<A>, root: Ptr, alg: Alg<A>, parent: Ptr, side: Side,
      i: nat) returns (x: Ctx)
    requires Holds(t, m, root, alg) && parent in m && KidOf(m[parent], side) == NULL
    requires if side == L then i < |InOrder(t)| && InOrder(t)[i] == parent
        else 0 < i <= |InOrder(t)| && InOrder(t)[i - 1] == parent
    ensures t == Plug(x, Leaf) && x.Up? && x.ptr == parent && x.side == side && |Ahead(x)| == i
  {
    var j := if side == L then i else i - 1;
    var x0, c, l, r := Locate(t, j);
    HoldsParts(x0, Node(parent, c, l, r), m, root, alg);
    ChildFacts(x0, parent, c, l, r, m, root, alg);
    x := if side == L then Up(L, parent, c, r, x0) else Up(R, parent, c, l, x0);
  }

  lemma {:induction false} InsertedOrder(x: Ctx, node: Ptr, i: nat)
    requires |Ahead(x)| == i
    ensures var q := InOrder(Plug(x, Leaf));
            i <= |q| && InOrder(Plug(x, Node(node, false, Leaf, Leaf))) == q[..i] + [node] + q[i..]
  {
    PlugOrder(x, Leaf);
    PlugOrder(x, Node(node, false, Leaf, Leaf));
    var q := InOrder(Plug(x, Leaf));
    assert q == Ahead(x) + Behind(x);
    assert q[..i] == Ahead(x) && q[i..] == Behind(x);
    assert InOrder(Node(node, false, Leaf, Leaf)) == [node];
  }

  // ---- replacing a node ----

  lemma {:induction false} ReplaceReads<A>(x: Ctx, n: Ptr, p: Ptr, c: bool, l: Tree, r: Tree, m: Arena<A>, root: Ptr,
      alg: Alg<A>)
    requires Parts(x, Node(n, c, l, r), m, root, alg) && p !in Ptrs(Plug(x, Node(n, c, l, r))) && p != NULL
    ensures n in m && n != NULL && n != p && m[n] == RbNode(TopPtr(x, NULL), c, Root(l), Root(r), m[n].aug)
    ensures (l.Node? ==> l.ptr in m && l.ptr !in {n, p, TopPtr(x, NULL), Root(r), NULL})
      && (r.Node? ==> r.ptr in m && r.ptr !in {n, p, TopPtr(x, NULL), Root(l), NULL})
    ensures (l.Leaf? ==> Root(l) == NULL) && (r.Leaf? ==> Root(r) == NULL) && (l.Node? ==> Root(l) == l.ptr)
      && (r.Node? ==> Root(r) == r.ptr)
    ensures x.Up? ==> x.ptr in m && x.ptr !in {n, p, NULL} && (if m[x.ptr].left == n then L else R) == x.side
    ensures p !in Ptrs(l) && p !in Ptrs(r) && p !in CtxPtrs(x)
  {
    var t := Node(n, c, l, r);
    PartsTop(x, t, m, root, alg);
    PartsKeys(x, t, m, root, alg);
    PlugDistinct(x, t);
    RootIn(l);
    RootIn(r);
    if x.Up? { WhichSide(m[x.ptr], x.side, n); }
  }

  lemma {:induction false} Replaced<A>(x: Ctx, n: Ptr, p: Ptr, c: bool, l: Tree, r: Tree, i: nat, m: Arena<A>,
      m': Arena<A>, root: Ptr, root': Ptr, alg: Alg<A>)
    requires Parts(x, Node(n, c, l, r), m, root, alg) && p !in Ptrs(Plug(x, Node(n, c, l, r))) && p != NULL && p in m
    requires RedBlack(Plug(x, Node(n, c, l, r))) && |Ahead(x)| + |InOrder(l)| == i
    requires ReplaceLinks(x, n, p, l, r, m, m')
    requires if x.Up? then root' == root else root' == p
    ensures var t, t' := Plug(x, Node(n, c, l, r)), Plug(x, Node(p, c, l, r));
            && Linked(t', m', NULL) && root' == Root(t') && Distinct(t') && RedBlack(t')
            && i < |InOrder(t)| && InOrder(t') == InOrder(t)[i := p]
  {
    var t, t' := Node(n, c, l, r), Node(p, c, l, r);
    ReplaceReads(x, n, p, c, l, r, m, root, alg);
    var h := Unplug(x, t);
    Replug(x, t', h);
    ReplacedOrder(x, n, p, c, l, r, i);
    PlugDistinct(x, t');
    ReplacedLinks(x, n, p, c, l, r, m, m', root, root', alg);
    hide RedBlack, InOrder, Bal, RedOk, Linked, LinkedCtx, ReplaceLinks;
    PlugLinked(x, t', m', root', NULL);
  }

  /** The writes of a replacement. */
  ghost predicate ReplaceLinks<A>(x: Ctx, n: Ptr, p: Ptr, l: Tree, r: Tree, m: Arena<A>, m': Arena<A>) {
    && n in m && p in m && m'.Keys == m.Keys && LinkOf(m'[p]) == LinkOf(m[n])
    && (x.Up? ==> x.ptr in m && LinkOf(m'[x.ptr]) == LinkOf(WithKid(m[x.ptr], x.side, p)))
    && (l.Node? ==> l.ptr in m && LinkOf(m'[l.ptr]) == LinkOf(m[l.ptr]).(parent := p))
    && (r.Node? ==> r.ptr in m && LinkOf(m'[r.ptr]) == LinkOf(m[r.ptr]).(parent := p))
    && LinksElsewhere(m, m', {p, TopPtr(x, NULL), Root(l), Root(r)})
  }

  lemma {:induction false} ReplacedLinks<A>(x: Ctx, n: Ptr, p: Ptr, c: bool, l: Tree, r: Tree, m: Arena<A>,
      m': Arena<A>, root: Ptr, root': Ptr, alg: Alg<A>)
    requires Parts(x, Node(n, c, l, r), m, root, alg) && p !in Ptrs(Plug(x, Node(n, c, l, r))) && p != NULL
    requires ReplaceLinks(x, n, p, l, r, m, m') && if x.Up? then root' == root else root' == p
    ensures Linked(Node(p, c, l, r), m', TopPtr(x, NULL)) && LinkedCtx(x, m', root', NULL, p)
  {
    ReplaceReads(x, n, p, c, l, r, m, root, alg);
    PartsKeys(x, Node(n, c, l, r), m, root, alg);
    RootIn(l);
    RootIn(r);
    hide Plug;
    RehungLinks(l, m, m', n, p, l.Node? && l.black);
    RehungLinks(r, m, m', n, p, r.Node? && r.black);
    Unpainted(l);
    Unpainted(r);
    HoleLinks(x, m, m', root, root', NULL, n, p);
  }

  /** The writes, one after the other. */
  lemma {:induction false} ReplaceWritten<A>(x: Ctx, n: Ptr, p: Ptr, l: Tree, r: Tree, m: Arena<A>, m1: Arena<A>,
      m2: Arena<A>, m3: Arena<A>, m': Arena<A>)
    requires n in m && p in m && n != p && p != NULL && n != NULL && m[n].left == Root(l) && m[n].right == Root(r)
    requires (l.Node? ==> l.ptr in m && l.ptr !in {n, p, TopPtr(x, NULL), Root(r), NULL})
      && (r.Node? ==> r.ptr in m && r.ptr !in {n, p, TopPtr(x, NULL), Root(l), NULL})
    requires x.Up? ==> x.ptr in m && x.ptr !in {n, p, NULL}
    requires m1 == if x.Up? then m[x.ptr := WithKid(m[x.ptr], x.side, p)] else m
    requires if l.Node? then l.ptr in m1 && m2 == m1[l.ptr := m1[l.ptr].(parent := p)] else m2 == m1
    requires if r.Node? then r.ptr in m2 && m3 == m2[r.ptr := m2[r.ptr].(parent := p)] else m3 == m2
    requires n in m3 && p in m3 && m' == m3[p := m3[n].(aug := m3[p].aug)]
    ensures ReplaceLinks(x, n, p, l, r, m, m') && forall q :: q in m ==> m'[q].aug == m[q].aug
  {
  }

  lemma {:induction false} ReplacedOrder(x: Ctx, n: Ptr, p: Ptr, c: bool, l: Tree, r: Tree, i: nat)
    requires |Ahead(x)| + |InOrder(l)| == i
    ensures var q := InOrder(Plug(x, Node(n, c, l, r))); i < |q| && InOrder(Plug(x, Node(p, c, l, r))) == q[i := p]
  {
    PlugOrder(x, Node(n, c, l, r));
    PlugOrder(x, Node(p, c, l, r));
    assert InOrder(Node(n, c, l, r)) == InOrder(l) + [n] + InOrder(r);
    assert InOrder(Node(p, c, l, r)) == InOrder(l) + [p] + InOrder(r);
  }

  /** Every stored summary is the meaning of the subtree's contents in order. */
  lemma {:induction false} SummaryMeans<A>(x: Ctx, t: Tree, m: Arena<A>, root: Ptr, alg: Alg<A>)
    requires Holds(Plug(x, t), m, root, alg)
    ensures RootAug(t, m, alg) == alg.sum(InOrder(t))
  {
    HoldsParts(x, t, m, root, alg);
    RightSum(t, m, alg);
  }
}
