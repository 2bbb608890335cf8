/** A practice session: items are asked for box by box, and full boxes are made way in. */
module LeitnerSession {
  import opened LeitnerBoxes

  /** Why a box is gone through. */
  datatype Kind = Push | Clean | MakeWay

  const MIN_VIS_IN_LBOX0_TO_RELOAD := VS_CNT_BASE

  /** How many items a box is gone through for at most; 0 for no limit. */
  function MaxGo(level: int, kind: Kind): nat {
    match kind
    case Push => if level == 1 then 6 else if level == 2 then 8 else if level == 3 then 10 else if level == 4 then 16
        else 0
    case Clean => 0
    case MakeWay =>
      if level == 0 then 2 else if level == 1 then 4 else if level == 2 then 8 else if level == 3 then 10
      else if level == 4 then 16 else 0
  }

  /** The table in the source: for each box its limit, then the numbers for the three kinds. */
  const BoxLeveMaxVs: seq<nat> := [
    1 * VS_CNT_BASE, 0, 0, 2,
    3 * VS_CNT_BASE, 6, 0, 4,
    3 * VS_CNT_BASE, 8, 0, 8,
    5 * VS_CNT_BASE, 10, 0, 10,
    8 * VS_CNT_BASE, 16, 0, 16,
    0 * VS_CNT_BASE, 0, 0, 0]

  lemma FromTheTable(level: int, kind: Kind)
    requires 0 <= level < BOX_LEVEL_CNT
    ensures LimitOf(level) == BoxLeveMaxVs[4 * level]
    ensures MaxGo(level, kind)
         == BoxLeveMaxVs[4 * level + (match kind case Push => 0 case Clean => 1 case MakeWay => 2) + 1]
  {
  }

  /** Where there is a limit, it empties no full box; making way is always limited, cleaning never. */
  lemma LimitLeavesSome(level: int, kind: Kind)
    requires 0 <= level < 5
    ensures MaxGo(level, kind) < LimitOf(level) && MaxGo(level, Clean) == 0 < MaxGo(level, MakeWay)
    ensures MaxGo(level, Push) == 0 <==> level == 0
  {
  }

  /**
   * How many items are to be asked for: `pug` is what is left of the number the user gave, `ugc` that number, 0 for no
   * limit.
   */
  function Cnt2Go(max: nat, pug: int, ugc: int): int {
    if max == 0 then (if ugc == 0 then -1 else pug)
    else if ugc == 0 then max
    else Min(max, pug)
  }

  /** Nothing is asked for exactly when the user's number is used up. */
  lemma IdleIffUsedUp(max: nat, pug: int, ugc: int)
    ensures Cnt2Go(max, pug, ugc) == 0 <==> ugc != 0 && pug == 0
  {
  }

  /** Without a number the limit of the box counts, else the lesser of the two; counting down from -1 never ends. */
  lemma LesserLimit(max: nat, pug: int, ugc: int)
    ensures ugc == 0 ==> Cnt2Go(max, pug, ugc) == if max > 0 then max else -1
    ensures ugc != 0 ==> Cnt2Go(max, pug, ugc) <= pug && (max > 0 ==> Cnt2Go(max, pug, ugc) <= max)
    ensures ugc != 0 ==> Cnt2Go(max, pug, ugc) == pug || (max > 0 && Cnt2Go(max, pug, ugc) == max)
  {
  }

  /** The box has no room left. */
  predicate Fills(q: seq<seq<int>>, level: int) {
    0 <= level < 5 && level < |q| && |q[level]| >= LimitOf(level)
  }

  // ---- answers and moves ----

  /** Where an answer sends an item of the box `b`. */
  function Goal(wrong: bool, b: int): int {
    if wrong then 0 else b + 1
  }

  /**
   * From place `k` on the moves are loads, and what the answers from `at` up to `now` lead to, in their order: a wrong
   * one sends the item to box 0, a right one a box up.
   */
  ghost predicate Follows(answers: nat -> bool, log: seq<Move>, k: nat, at: nat, now: nat)
    decreases |log|
  {
    if |log| <= k then |log| == k && at == now else
      var m, rest := log[|log| - 1], log[..|log| - 1];
      if m.from == FILE then m.to == 0 && Follows(answers, rest, k, at, now)
      else
        && now > 0 && 0 <= m.from < 5 && m.to == Goal(answers(now - 1), m.from)
        && Follows(answers, rest, k, at, now - 1)
  }

  lemma {:induction false} FollowsMove(answers: nat -> bool, log: seq<Move>, k: nat, at: nat, now: nat, m: Move)
    requires Follows(answers, log, k, at, now) && 0 <= m.from < 5 && m.to == Goal(answers(now), m.from) && k <= |log|
    ensures Follows(answers, log + [m], k, at, now + 1)
  {
    assert (log + [m])[..|log|] == log;
  }

  lemma {:induction false} FollowsLoads(answers: nat -> bool, log: seq<Move>, log': seq<Move>, k: nat, at: nat,
      now: nat)
    requires Follows(answers, log, k, at, now) && log <= log' && k <= |log|
    requires forall i :: |log| <= i < |log'| ==> log'[i].from == FILE && log'[i].to == 0
    ensures Follows(answers, log', k, at, now)
    decreases |log'|
  {
    if |log'| > |log| {
      FollowsLoads(answers, log, log'[..|log'| - 1], k, at, now);
    } else {
      assert log' == log;
    }
  }

  lemma {:induction false} FollowsOn(answers: nat -> bool, log: seq<Move>, log': seq<Move>, k: nat, at: nat, mid: nat,
      now: nat)
    requires k <= |log| && log <= log' && Follows(answers, log, k, at, mid) && Follows(answers, log', |log|, mid, now)
    ensures Follows(answers, log', k, at, now)
    decreases |log'|
  {
    if |log'| > |log| {
      var m, rest := log'[|log'| - 1], log'[..|log'| - 1];
      FollowsOn(answers, log, rest, k, at, mid, if m.from == FILE then now else now - 1);
    } else {
      assert log' == log;
    }
  }

  /** What a session changes. */
  datatype State = State(boxes: seq<Box>, log: seq<Move>, asked: nat, loaded: nat)

  /** The record has grown by loads and by what the answers lead to. */
  ghost predicate Went(answers: nat -> bool, s: State, t: State) {
    && s.log <= t.log && s.loaded <= t.loaded && s.asked <= t.asked
    && Follows(answers, t.log, |s.log|, s.asked, t.asked)
  }

  lemma WentNowhere(answers: nat -> bool, s: State)
    ensures Went(answers, s, s)
  {
  }

  lemma WentOn(answers: nat -> bool, s: State, t: State, u: State)
    requires Went(answers, s, t) && Went(answers, t, u)
    ensures Went(answers, s, u) && s.asked <= t.asked <= u.asked && |s.log| <= |t.log| && t.log <= u.log
  {
    FollowsOn(answers, t.log, u.log, |s.log|, s.asked, t.asked, u.asked);
  }

  lemma WentGrows(answers: nat -> bool, s: State, t: State)
    requires Went(answers, s, t)
    ensures s.log <= t.log
  {
  }

  lemma WentLoads(answers: nat -> bool, s: State, t: State)
    requires s.log <= t.log && s.loaded <= t.loaded && s.asked == t.asked
    requires forall i :: |s.log| <= i < |t.log| ==> t.log[i].from == FILE && t.log[i].to == 0
    ensures Went(answers, s, t)
  {
    FollowsLoads(answers, s.log, t.log, |s.log|, s.asked, s.asked);
  }

  lemma WentMove(answers: nat -> bool, s: State, t: State, m: Move)
    requires t.log == s.log + [m] && s.loaded <= t.loaded && t.asked == s.asked + 1
    requires 0 <= m.from < 5 && m.to == Goal(answers(s.asked), m.from)
    ensures Went(answers, s, t) && Begins(s, t, m)
  {
    FollowsMove(answers, s.log, |s.log|, s.asked, s.asked, m);
  }

  /** The first thing to happen is the move `m`. */
  ghost predicate Begins(s: State, t: State, m: Move) {
    |t.log| > |s.log| && t.log[|s.log|] == m
  }

  /** The head of the box `b` is asked for first, and goes where the answer sends it. */
  ghost predicate AsksFirst(answers: nat -> bool, s: State, t: State, b: int) {
    var q := Queues(s.boxes);
    0 <= b < |q| && q[b] != [] && Begins(s, t, Move(q[b][0], b, Goal(answers(s.asked), b)))
  }

  /** The highest of the boxes above `b` that are full one after another, or `b`. */
  function Top(q: seq<seq<int>>, b: nat): (r: nat)
    requires b < 5
    ensures b <= r < 5 && (r != b ==> Fills(q, r))
    decreases 5 - b
  {
    if b < 4 && Fills(q, b + 1) then Top(q, b + 1) else b
  }

  /** The least box from `b` on that holds items, or 5. */
  function Least(q: seq<seq<int>>, b: nat): (r: nat)
    requires |q| == BOX_LEVEL_CNT && b <= 5
    ensures b <= r <= 5 && (r < 5 ==> q[r] != []) && forall j :: b <= j < r ==> q[j] == []
    decreases 5 - b
  {
    if b == 5 || q[b] != [] then b else Least(q, b + 1)
  }

  /** Box 0 has room, and the file has items left. */
  predicate CanLoad(q: seq<seq<int>>, loaded: nat, total: nat, perLoad: int)
    requires |q| == BOX_LEVEL_CNT
  {
    perLoad > 0 && |q[0]| < LimitOf(0) && loaded < total
  }

  /** Whose head a session asks for first, FILE when it loads first, 5 when there is nothing to do. */
  function FirstUp(q: seq<seq<int>>, canLoad: bool): int
    requires |q| == BOX_LEVEL_CNT
  {
    if q[Top(q, 0)] != [] then Top(q, 0)
    else if |q[1]| > MIN_VIS_IN_LBOX0_TO_RELOAD then 1
    else if canLoad then FILE
    else if Least(q, 1) < 5 then Top(q, Least(q, 1))
    else 5
  }

  /** What happens first is what is first up. */
  ghost predicate Starts(answers: nat -> bool, s: State, t: State, f: int) {
    if f == FILE then Begins(s, t, Move(s.loaded, FILE, 0))
    else if f < 5 then AsksFirst(answers, s, t, f)
    else t.log == s.log
  }

  lemma TopIs(q: seq<seq<int>>, b: nat)
    requires b < 5 && |q| == BOX_LEVEL_CNT
    ensures if Fills(q, b + 1) then Top(q, b) == Top(q, b + 1) && q[Top(q, b)] != [] && q[b + 1] != []
        else Top(q, b) == b
    ensures q[b] != [] ==> q[Top(q, b)] != []
  {
  }

  /** The first box on the walk that anything comes of. */
  lemma Visited(q: seq<seq<int>>, i: nat, j: nat)
    requires |q| == BOX_LEVEL_CNT && q[0] == [] && |q[1]| < LimitOf(1) && 0 <= j <= i <= 4 && 1 <= i
      && forall b :: 1 <= b < i ==> q[b] == []
    ensures q[Top(q, j)] != [] ==> Least(q, 1) < 5 && Top(q, Least(q, 1)) == Top(q, j)
    ensures q[Top(q, j)] == [] ==> q[j] == [] && !Fills(q, j + 1)
  {
    TopIs(q, j);
    hide Top, Least;
    if q[j] != [] {
      assert Least(q, 1) == j;
    } else if Fills(q, j + 1) {
      assert Least(q, 1) == j + 1;
    }
  }

  /** Nothing has happened yet, and the boxes 1 to `n - 1` held nothing; or the box `f` was asked first. */
  ghost predicate SoFar(answers: nat -> bool, s: State, t: State, q: seq<seq<int>>, n: int, f: int, same: bool) {
    (t == s && same && forall b :: 1 <= b < n && b < |q| ==> q[b] == []) || AsksFirst(answers, s, t, f)
  }

  lemma SoFarBegun(answers: nat -> bool, s: State, q: seq<seq<int>>, n: int, f: int)
    requires n <= 1
    ensures SoFar(answers, s, s, q, n, f, true)
  {
  }

  lemma SoFarDone(answers: nat -> bool, s: State, t: State, q: seq<seq<int>>, f: int, same: bool)
    requires |q| == BOX_LEVEL_CNT && Least(q, 1) < 5 && SoFar(answers, s, t, q, 5, f, same)
    ensures AsksFirst(answers, s, t, f) && t != s
  {
  }

  lemma SoFarMoved(answers: nat -> bool, s: State, t: State, q: seq<seq<int>>, n: int, f: int, same: bool)
    requires SoFar(answers, s, t, q, n, f, same) && t != s
    ensures AsksFirst(answers, s, t, f)
  {
  }

  lemma Further(answers: nat -> bool, s: State, u: State, t: State, q: seq<seq<int>>, i: nat, j: nat, f: int,
      same: bool,
      same': bool)
    requires |q| == BOX_LEVEL_CNT && q[0] == [] && |q[1]| < LimitOf(1) && 0 <= j <= i <= 4 && 1 <= i
      && Least(q, 1) < 5 && f == Top(q, Least(q, 1))
    requires SoFar(answers, s, u, q, Max(i, j), f, same) && u.log <= t.log
    requires u == s && same ==>
        if q[Top(q, j)] != [] then AsksFirst(answers, s, t, Top(q, j)) else t == s && same' && q[j] == []
    ensures SoFar(answers, s, t, q, Max(i, j + 1), f, same')
  {
    hide Top, Least, Queues;
    if u == s && same && forall b :: 1 <= b < Max(i, j) && b < |q| ==> q[b] == [] {
      Visited(q, i, j);
    }
  }

  /** All items that are loaded are in the last box. */
  ghost predicate AllLearnt(s: State) {
    var q := Queues(s.boxes);
    |q| == BOX_LEVEL_CNT && |q[5]| == s.loaded
  }

  /**
   * What comes after box 0: box 1 when it holds more than a few, else a load if there is any, else a walk from the
   * least box that holds items. `walking` says that a walk is under way already, `used` that the user's number is used
   * up.
   */
  ghost predicate Onward(answers: nat -> bool, s: State, t: State, total: nat, perLoad: int, walking: bool, used: bool,
      steps: nat, left: nat)
    requires |Queues(s.boxes)| == BOX_LEVEL_CNT
  {
    var q := Queues(s.boxes);
    if |q[1]| > MIN_VIS_IN_LBOX0_TO_RELOAD then steps > 0 && !used ==> AsksFirst(answers, s, t, 1)
    else if CanLoad(q, s.loaded, total, perLoad) then Starts(answers, s, t, FILE)
    else if walking then t == s && left == steps
    else q[0] == [] && steps > 1 && !used ==> Starts(answers, s, t, if Least(q, 1) < 5 then Top(q, Least(q, 1)) else 5)
  }

  /** The one item left to ask for is answered right, and fills the box above. */
  predicate Stuck(q: seq<seq<int>>, b: nat, pug: int, ugc: int, wrong: bool)
    requires |q| == BOX_LEVEL_CNT && b < 5
  {
    ugc > 0 && pug == 1 && !wrong && b < 4 && q[b] != [] && |q[b + 1]| + 1 >= LimitOf(b + 1)
  }

  lemma StuckFills(q: seq<seq<int>>, b: nat, pug: int, ugc: int, wrong: bool)
    requires |q| == BOX_LEVEL_CNT && b < 5 && Stuck(q, b, pug, ugc, wrong)
    ensures Fills(Moved(q, b, Goal(wrong, b)), Goal(wrong, b)) && Goal(wrong, b) != 0 && ugc > 0 && pug == 1
      && q[b] != []
  {
    MovedSizes(q, b, b + 1);
  }

  /** The first item asked for, and what comes when there is none in box 0. */
  lemma StartsSo(answers: nat -> bool, s: State, t: State, total: nat, perLoad: int, steps: nat, left: nat)
    requires |Queues(s.boxes)| == BOX_LEVEL_CNT && steps > 1
    requires var q := Queues(s.boxes);
             && (q[Top(q, 0)] != [] ==> AsksFirst(answers, s, t, Top(q, 0)))
             && (q[0] == [] && !Fills(q, 1) ==> Onward(answers, s, t, total, perLoad, false, false, steps, left))
    ensures var q := Queues(s.boxes); Starts(answers, s, t, FirstUp(q, CanLoad(q, s.loaded, total, perLoad)))
  {
    TopIs(Queues(s.boxes), 0);
    hide Top, AsksFirst, Begins, CanLoad, Queues, Least;
  }

  /** With `n` answers to items of the box `b` no box fills. */
  predicate Ample(q: seq<seq<int>>, b: nat, n: int)
    requires |q| == BOX_LEVEL_CNT && b < 5
  {
    n >= 0 && (b < 4 ==> |q[b + 1]| + n < LimitOf(b + 1)) && |q[0]| + (if b > 0 then n else 0) < LimitOf(0)
  }

  /**
   * A box has been gone through for `go` items: no more are asked for as long as no box fills, and no fewer unless the
   * box is empty, the user's number used up or the session cut off.
   */
  ghost predicate Through(q0: seq<seq<int>>, q: seq<seq<int>>, b: nat, go: int, ret: int, pug: int, left: nat)
    requires |q0| == |q| == BOX_LEVEL_CNT && b < 5
  {
    (Ample(q0, b, go) ==> ret <= go) && (left > 0 && ret != go && q[b] != [] ==> pug == 0)
  }

  /** At most `n` items came to the box above, and to box 0. */
  predicate Within(q0: seq<seq<int>>, q: seq<seq<int>>, b: nat, n: int)
    requires |q0| == |q| == BOX_LEVEL_CNT && b < 5
  {
    (b < 4 ==> |q[b + 1]| <= |q0[b + 1]| + n) && |q[0]| <= |q0[0]| + (if b > 0 then n else 0)
  }

  lemma AmpleStep(q0: seq<seq<int>>, q: seq<seq<int>>, b: nat, go: int, n: int, wrong: bool)
    requires |q0| == |q| == BOX_LEVEL_CNT && b < 5 && q[b] != []
    requires Ample(q0, b, go) && Within(q0, q, b, n) && 0 <= n < go
    ensures var r := Moved(q, b, Goal(wrong, b));
            !Fills(r, Goal(wrong, b)) && |r| == BOX_LEVEL_CNT && Within(q0, r, b, n + 1)
  {
    MovedSizes(q, b, Goal(wrong, b));
    hide Moved;
  }

  lemma WithinSelf(q: seq<seq<int>>, b: nat, n: int)
    requires |q| == BOX_LEVEL_CNT && b < 5
    ensures Within(q, q, b, 0) && (Ample(q, b, n) ==> n >= 0)
  {
  }

  lemma MovedSizes(q: seq<seq<int>>, a: int, n: int)
    requires 0 <= a < |q| && 0 <= n < |q| && q[a] != []
    ensures var r := Moved(q, a, n);
            |r| == |q| && forall b :: 0 <= b < |q| ==>
                |r[b]| == |q[b]| + (if b == n then 1 else 0) - (if b == a then 1 else 0)
  {
  }

  class Session {
    const lts: Boxes
    /** Whether the first answer is wrong, the second, and so on. */
    const answers: nat -> bool
    /** How many answers there have been. */
    var asked: nat
    /** A walk over all boxes is under way. */
    var firstwhile: bool

    constructor (lts: Boxes, answers: nat -> bool)
      ensures this.lts == lts && this.answers == answers && asked == 0 && !firstwhile
    {
      this.lts, this.answers, asked, firstwhile := lts, answers, 0, false;
    }

    ghost function Now(): State
      reads this, lts
    {
      State(lts.boxes, lts.log, asked, lts.loaded)
    }

    /**
     * move_to_lbox: the head of a box goes to the end of another, and way is made there while it is full. A session is
     * cut off after so many `steps`, answers and rounds of making way together.
     */
    method MakeMove(newlevel: int, oldlevel: int, pug0: int, ugc: int, steps: nat)
      returns (ret: int, full: bool, pug: int, left: nat)
      requires lts.Valid() && 0 <= oldlevel < 5 && Queues(lts.boxes)[oldlevel] != []
      requires asked > 0 && newlevel == Goal(answers(asked - 1), oldlevel)
      modifies lts, this
      decreases steps, 20
      ensures lts.Valid() && left <= steps && firstwhile == old(firstwhile) && lts.loaded == old(lts.loaded)
      ensures Went(answers, old(Now()).(asked := old(asked) - 1), Now())
        && AsksFirst(answers, old(Now()).(asked := old(asked) - 1), Now(), oldlevel)
      ensures asked >= old(asked) && ret == asked - old(asked) + (if full then 1 else 0) && pug == pug0 - ret
      ensures full <==> Fills(Moved(old(Queues(lts.boxes)), oldlevel, newlevel), newlevel)
      ensures !full ==>
          ret == 0 && left == steps && Queues(lts.boxes) == Moved(old(Queues(lts.boxes)), oldlevel, newlevel)
      ensures full && newlevel != 0 && left > 0 ==> !Fills(Queues(lts.boxes), newlevel)
      ensures full && steps > 1 && !(ugc != 0 && pug0 == 1) ==> |lts.log| > |old(lts.log)| + 1
      ensures full && ugc > 0 && pug0 == 1 ==>
          left == (if newlevel != 0 || steps == 0 then 0 else steps - 1)
          && Queues(lts.boxes) == Moved(old(Queues(lts.boxes)), oldlevel, newlevel)
    {
      hide Boxes.Agree, Queues, Went, AsksFirst, Begins, Moved, Told;
      ghost var s := Now().(asked := asked - 1);
      lts.Sizes();
      ret, full, pug, left := 0, false, pug0, steps;
      lts.MoveToLbox(newlevel, oldlevel);
      ghost var t := Now();
      FirstMove(s, t, oldlevel, newlevel);
      lts.Sizes();
      var f := lts.LboxIsFull(newlevel);
      FullIs(newlevel, f);
      if f {
        ret, pug, full := 1, pug - 1, true;
      }
      ghost var more := false;
      while f && left != 0
        invariant lts.Valid() && left <= steps && (f ==> full && newlevel < 5) && (!full ==> !f && left == steps)
        invariant firstwhile == old(firstwhile) && lts.loaded == old(lts.loaded) && t.log <= lts.log
        invariant Went(answers, s, Now()) && AsksFirst(answers, s, Now(), oldlevel)
        invariant asked >= old(asked) && ret == asked - old(asked) + (if full then 1 else 0) && pug == pug0 - ret
        invariant f <==> Fills(Queues(lts.boxes), newlevel)
        invariant !full || !more ==> Now() == t && left == steps
        invariant more && steps > 1 && !(ugc != 0 && pug0 == 1) ==> |lts.log| > |t.log|
        invariant full && ugc > 0 && pug0 == 1 ==> f && pug == 0 && Now() == t
        invariant newlevel == 0 ==> !more
        decreases left
      {
        var r;
        ghost var u := Now();
        lts.Sizes();
        r, pug, left := GoLbox(newlevel, MakeWay, pug, ugc, left - 1);
        WentOn(answers, s, u, Now());
        StillFirst(s, u, Now(), oldlevel);
        ret := ret + r;
        more := true;
        if newlevel == 0 {
          break;
        }
        f := lts.LboxIsFull(newlevel);
        lts.Sizes();
        FullIs(newlevel, f);
      }
    }

    /** A box is full when its queue is. */
    lemma FullIs(level: int, f: bool)
      requires lts.Valid() && 0 <= level < BOX_LEVEL_CNT
      requires f <==> level != 5 && |lts.boxes[level].queue| >= LimitOf(level)
      ensures f <==> Fills(Queues(lts.boxes), level)
    {
    }

    /** The answer has been followed. */
    lemma FirstMove(s: State, t: State, a: int, n: int)
      requires |Queues(s.boxes)| == BOX_LEVEL_CNT && 0 <= a < 5 && Queues(s.boxes)[a] != []
        && s.boxes[a].queue == Queues(s.boxes)[a] && n == Goal(answers(s.asked), a)
      requires t.log == s.log + [Move(s.boxes[a].queue[0], a, n)] && s.loaded <= t.loaded && t.asked == s.asked + 1
      ensures Went(answers, s, t) && AsksFirst(answers, s, t, a)
    {
      WentMove(answers, s, t, Move(s.boxes[a].queue[0], a, n));
    }

    lemma StillFirst(s: State, t: State, u: State, b: int)
      requires AsksFirst(answers, s, t, b) && t.log <= u.log
      ensures AsksFirst(answers, s, u, b) && |u.log| > |s.log|
    {
    }

    /** One item is asked for, and goes where the answer sends it. */
    method AskOne(lblevel: int, pug0: int, ugc: int, steps: nat) returns (r: nat, full: bool, pug: int, left: nat)
      requires lts.Valid() && 0 <= lblevel < 5 && Queues(lts.boxes)[lblevel] != []
      modifies lts, this
      decreases steps, 30
      ensures lts.Valid() && left <= steps && firstwhile == old(firstwhile) && lts.loaded == old(lts.loaded)
      ensures |Queues(lts.boxes)| == |old(Queues(lts.boxes))| == BOX_LEVEL_CNT
      ensures Went(answers, old(Now()), Now()) && AsksFirst(answers, old(Now()), Now(), lblevel)
      ensures asked == old(asked) + r && r > 0 && pug == pug0 - r
      ensures var q, n := old(Queues(lts.boxes)), Goal(answers(old(asked)), lblevel);
              && (full <==> Fills(Moved(q, lblevel, n), n))
              && (!full ==> r == 1 && left == steps && Queues(lts.boxes) == Moved(q, lblevel, n))
      ensures Stuck(old(Queues(lts.boxes)), lblevel, pug0, ugc, answers(old(asked))) ==> left == 0
    {
      hide Boxes.Agree, Queues, Went, AsksFirst, Moved, Told, Stuck;
      lts.Sizes();
      if Stuck(Queues(lts.boxes), lblevel, pug0, ugc, answers(asked)) {
        StuckFills(Queues(lts.boxes), lblevel, pug0, ugc, answers(asked));
      }
      ghost var s := Now();
      var wrong := answers(asked);
      asked := asked + 1;
      assert Now().(asked := asked - 1) == s;
      var n;
      n, full, pug, left := MakeMove(if wrong then 0 else lblevel + 1, lblevel, pug0, ugc, steps);
      lts.Sizes();
      if full {
        r := n;
      } else {
        r := 1;
        pug := pug - 1;
      }
    }

    /**
     * go_lbox_internal: heads are asked for while there are any; a wrong answer sends one to box 0, a right one a box
     * up.
     */
    method GoInternal(lblevel: int, max: nat, pug0: int, ugc: int, steps: nat)
      returns (ret: int, pug: int, left: nat, ghost over: bool)
      requires lts.Valid() && 0 <= lblevel < 5
      modifies lts, this
      decreases steps, 0
      ensures lts.Valid() && Went(answers, old(Now()), Now()) && left <= steps
      ensures firstwhile == old(firstwhile) && lts.loaded == old(lts.loaded)
      ensures ret == asked - old(asked) && pug == pug0 - ret
      ensures (ugc != 0 && pug0 == 0) || old(Queues(lts.boxes))[lblevel] == [] || steps == 0 ==>
          Now() == old(Now()) && ret == 0 && left == steps
      ensures !((ugc != 0 && pug0 == 0) || old(Queues(lts.boxes))[lblevel] == [] || steps == 0) ==>
          AsksFirst(answers, old(Now()), Now(), lblevel)
      ensures |Queues(lts.boxes)| == |old(Queues(lts.boxes))| == BOX_LEVEL_CNT
        && Through(old(Queues(lts.boxes)), Queues(lts.boxes), lblevel, Cnt2Go(max, pug0, ugc), ret, pug, left)
        && (Stuck(old(Queues(lts.boxes)), lblevel, pug0, ugc, answers(old(asked))) ==> left == 0)
      ensures pug0 > 0 && pug < 0 ==> over
      ensures over ==> pug0 > 0 && !Ample(old(Queues(lts.boxes)), lblevel, Cnt2Go(max, pug0, ugc))
    {
      hide Boxes.Agree, Queues, Went, AsksFirst, Moved, Told, Cnt2Go, Ample, Within, Stuck;
      over := false;
      IdleIffUsedUp(max, pug0, ugc);
      ghost var s, q0 := Now(), Queues(lts.boxes);
      lts.Sizes();
      WentNowhere(answers, s);
      var cnt2go := Cnt2Go(max, pug0, ugc);
      ghost var go, ample := cnt2go, Ample(q0, lblevel, cnt2go);
      var all := cnt2go;
      pug, left := pug0, steps;
      WithinSelf(q0, lblevel, go);
      if Stuck(q0, lblevel, pug0, ugc, answers(asked)) { StuckFills(q0, lblevel, pug0, ugc, answers(asked)); }
      while cnt2go != 0 && lts.boxes[lblevel].cnt != 0 && left != 0
        invariant lts.Valid() && left <= steps && |lts.boxes| == |Queues(lts.boxes)| == BOX_LEVEL_CNT
        invariant lts.boxes[lblevel].cnt == 0 <==> Queues(lts.boxes)[lblevel] == []
        invariant firstwhile == old(firstwhile) && lts.loaded == old(lts.loaded)
        invariant asked - s.asked == go - cnt2go >= 0 && pug == pug0 - (asked - s.asked) && Went(answers, s, Now())
        invariant (Now() == s && left == steps)
          || (AsksFirst(answers, s, Now(), lblevel) && go != 0 && steps != 0 && q0[lblevel] != [])
        invariant Now() == s || !Stuck(q0, lblevel, pug0, ugc, answers(s.asked)) || left == 0
        invariant ample ==> cnt2go >= 0 && Within(q0, Queues(lts.boxes), lblevel, go - cnt2go)
        invariant (pug0 > 0 ==> pug > 0 || over) && (over ==> pug0 > 0 && !ample)
        decreases left
      {
        ghost var u, q := Now(), Queues(lts.boxes);
        var r, full;
        r, full, pug, left := AskOne(lblevel, pug, ugc, left - 1);
        WentOn(answers, s, u, Now());
        if u != s { StillFirst(s, u, Now(), lblevel); }
        lts.Sizes();
        if ample { AmpleStep(q0, q, lblevel, go, go - cnt2go, answers(u.asked)); }
        cnt2go := cnt2go - r;
        over := over || (pug0 > 0 && full && pug <= 0);
        if !full && pug == 0 {
          break;
        }
      }
      ret := all - cnt2go;
    }

    /**
     * go_lbox: first the next box if it is full, then this one; from box 0 on, loads and walks over all boxes follow.
     */
    method GoLbox(lblevel: int, kind: Kind, pug0: int, ugc: int, steps: nat) returns (ret: int, pug: int, left: nat)
      requires lts.Valid() && 0 <= lblevel < 5
      modifies lts, this
      decreases steps, 10 - lblevel
      ensures lts.Valid() && Went(answers, old(Now()), Now()) && left <= steps
      ensures |Queues(lts.boxes)| == |old(Queues(lts.boxes))| == BOX_LEVEL_CNT
      ensures ret == asked - old(asked) && pug == pug0 - ret
      ensures (ugc > 0 || (ugc != 0 && kind == MakeWay)) && pug0 == 0 ==>
          Now() == old(Now()) && ret == 0 && pug == 0 && left == steps
      ensures kind == MakeWay && old(Queues(lts.boxes))[lblevel] != [] && steps > 0 ==>
          (lts.log == old(lts.log) <==> ugc != 0 && pug0 == 0)
      ensures !(ugc != 0 && pug0 == 0) && steps > 0 ==>
          var t := Top(old(Queues(lts.boxes)), lblevel);
          old(Queues(lts.boxes))[t] != [] ==> AsksFirst(answers, old(Now()), Now(), t)
      ensures firstwhile == old(firstwhile) || (ugc > 0 && pug == 0)
      ensures lblevel > 0 || kind == MakeWay ==> firstwhile == old(firstwhile) && lts.loaded == old(lts.loaded)
      ensures (lblevel > 0 || kind == MakeWay) && !Fills(old(Queues(lts.boxes)), lblevel + 1) ==>
          && Through(old(Queues(lts.boxes)), Queues(lts.boxes), lblevel, Cnt2Go(MaxGo(lblevel, kind), pug0, ugc), ret,
                pug, left)
          && (old(Queues(lts.boxes))[lblevel] == [] ==> Now() == old(Now()) && left == steps)
      ensures !Fills(old(Queues(lts.boxes)), lblevel + 1) ==>
          Stuck(old(Queues(lts.boxes)), lblevel, pug0, ugc, answers(old(asked))) ==> left == 0
      ensures lblevel == 0 && kind != MakeWay && !old(firstwhile) && left > 0 && !(ugc > 0 && pug == 0) ==>
          AllLearnt(Now())
      ensures lblevel == 0 && kind != MakeWay && old(Queues(lts.boxes))[0] == [] && !Fills(old(Queues(lts.boxes)), 1)
              && !(ugc > 0 && pug0 == 0) ==>
          Onward(answers, old(Now()), Now(), lts.total, lts.perLoad, old(firstwhile), ugc != 0 && pug0 == 0, steps,
              left)
    {
      hide Boxes.Agree, Queues, Went, AsksFirst, Moved, Told, Cnt2Go, Through, Top, MaxGo, Onward, AllLearnt, Stuck;
      ghost var s, q0 := Now(), Queues(lts.boxes);
      lts.Sizes();
      TopIs(q0, lblevel);
      ret, pug, left := 0, pug0, steps;
      var r;
      var f := lts.LboxIsFull(lblevel + 1);
      FullIs(lblevel + 1, f);
      WentNowhere(answers, s);
      if f {
        r, pug, left := GoLbox(lblevel + 1, kind, pug, ugc, left);
        ret := ret + r;
      }
      ghost var t := Now();
      ghost var over;
      r, pug, left, over := GoInternal(lblevel, MaxGo(lblevel, kind), pug, ugc, left);
      ret := ret + r;
      WentOn(answers, s, t, Now());
      if !(ugc != 0 && pug0 == 0) && steps > 0 && q0[Top(q0, lblevel)] != [] {
        StillFirst(s, if f then t else Now(), Now(), Top(q0, lblevel));
      }
      if ugc > 0 && pug == 0 {
        return;
      }
      if lblevel == 0 && kind != MakeWay {
        ghost var u := Now();
        r, pug, left := GoOn(pug, ugc, left);
        ret := ret + r;
        WentOn(answers, s, u, Now());
        if !(ugc != 0 && pug0 == 0) && steps > 0 && q0[Top(q0, lblevel)] != [] {
          StillFirst(s, u, Now(), Top(q0, lblevel));
        }
      }
    }

    /** What follows box 0: the surplus of box 1, then a load and all over again, or else a walk over all boxes. */
    method GoOn(pug0: int, ugc: int, steps: nat) returns (ret: int, pug: int, left: nat)
      requires lts.Valid() && !(ugc > 0 && pug0 == 0)
      modifies lts, this
      decreases steps, 5
      ensures lts.Valid() && Went(answers, old(Now()), Now()) && left <= steps
      ensures |Queues(lts.boxes)| == |old(Queues(lts.boxes))| == BOX_LEVEL_CNT
      ensures ret == asked - old(asked) && pug == pug0 - ret
      ensures firstwhile == old(firstwhile) || (ugc > 0 && pug == 0)
      ensures !old(firstwhile) && left > 0 && !(ugc > 0 && pug == 0) ==> AllLearnt(Now())
      ensures Onward(answers, old(Now()), Now(), lts.total, lts.perLoad, old(firstwhile), ugc != 0 && pug0 == 0, steps,
                  left)
    {
      hide Boxes.Agree, Queues, Went, AsksFirst, Begins, Moved, Told, Cnt2Go, Through, Top, MaxGo, AllLearnt, Least,
        CanLoad;
      ghost var s, q0 := Now(), Queues(lts.boxes);
      lts.Sizes();
      WentNowhere(answers, s);
      ret, pug, left := 0, pug0, steps;
      var r;
      if lts.boxes[1].cnt > MIN_VIS_IN_LBOX0_TO_RELOAD {
        r, pug, left := Surplus(pug, ugc, left);
        ret := ret + r;
        if ugc > 0 && pug == 0 {
          return;
        }
      }
      ghost var t := Now();
      var loaded := LoadNext();
      ghost var u := Now();
      WentOn(answers, s, t, u);
      if loaded > 0 {
        if left != 0 {
          r, pug, left := GoLbox(0, Push, pug, ugc, left - 1);
          ret := ret + r;
        }
      } else {
        r, pug, left := WalkBoxes(pug, ugc, left);
        ret := ret + r;
      }
      WentOn(answers, s, u, Now());
      if |q0[1]| > MIN_VIS_IN_LBOX0_TO_RELOAD {
        if steps > 0 && !(ugc != 0 && pug0 == 0) { StillFirst(s, t, Now(), 1); }
      } else if loaded > 0 {
        StillLoaded(s, u, Now());
      }
    }

    /** What box 1 holds beyond a few is asked for, up to its limit. */
    method Surplus(pug0: int, ugc: int, steps: nat) returns (ret: int, pug: int, left: nat)
      requires lts.Valid() && |Queues(lts.boxes)| == BOX_LEVEL_CNT
        && |Queues(lts.boxes)[1]| > MIN_VIS_IN_LBOX0_TO_RELOAD
      modifies lts, this
      decreases steps, 4
      ensures lts.Valid() && Went(answers, old(Now()), Now()) && left <= steps
      ensures firstwhile == old(firstwhile) && lts.loaded == old(lts.loaded)
      ensures ret == asked - old(asked) && pug == pug0 - ret
      ensures steps > 0 && !(ugc != 0 && pug0 == 0) ==> AsksFirst(answers, old(Now()), Now(), 1)
      ensures |Queues(lts.boxes)| == |old(Queues(lts.boxes))| == BOX_LEVEL_CNT
      ensures var q := old(Queues(lts.boxes));
              var max := Min(|q[1]|, LimitOf(1)) - MIN_VIS_IN_LBOX0_TO_RELOAD;
              Through(q, Queues(lts.boxes), 1, Cnt2Go(max, pug0, ugc), ret, pug, left)
    {
      hide Boxes.Agree, Queues, Went, AsksFirst, Told, Cnt2Go, Through;
      lts.Sizes();
      ghost var over;
      ret, pug, left, over := GoInternal(1, lts.boxes[1].cnt - MIN_VIS_IN_LBOX0_TO_RELOAD, pug0, ugc, steps);
    }

    /** A load in a session: something is loaded exactly when there is room and something left. */
    method LoadNext() returns (loaded: int)
      requires lts.Valid()
      modifies lts
      ensures lts.Valid() && Went(answers, old(Now()), Now()) && asked == old(asked)
      ensures |Queues(lts.boxes)| == |old(Queues(lts.boxes))| == BOX_LEVEL_CNT
      ensures loaded > 0 <==> CanLoad(old(Queues(lts.boxes)), old(lts.loaded), lts.total, lts.perLoad)
      ensures if loaded > 0 then Begins(old(Now()), Now(), Move(old(lts.loaded), FILE, 0)) else Now() == old(Now())
    {
      hide Boxes.Agree, Queues, Went;
      ghost var s := Now();
      lts.Sizes();
      lts.PerLoad();
      loaded := lts.Load(false, 0);
      WentLoads(answers, s, Now());
      lts.Sizes();
    }

    lemma StillLoaded(s: State, t: State, u: State)
      requires Begins(s, t, Move(s.loaded, FILE, 0)) && t.log <= u.log
      ensures Begins(s, u, Move(s.loaded, FILE, 0))
    {
    }

    /** Nothing can be loaded, and box 0 and the surplus of box 1 are done; the user's number is not used up. */
    ghost predicate Calm(q: seq<seq<int>>, loaded: nat, pug: int, ugc: int)
      requires |q| == BOX_LEVEL_CNT
    {
      && q[0] == [] && |q[1]| <= MIN_VIS_IN_LBOX0_TO_RELOAD && !CanLoad(q, loaded, lts.total, lts.perLoad)
      && !(ugc != 0 && pug == 0)
    }

    /** A box on the walk: something comes of it exactly when it or the next one up has items to be asked for. */
    method Visit(lblevel: int, pug0: int, ugc: int, steps: nat) returns (ret: int, pug: int, left: nat)
      requires lts.Valid() && firstwhile && 0 <= lblevel < 5
      modifies lts, this
      decreases steps, 11
      ensures lts.Valid() && Went(answers, old(Now()), Now()) && left <= steps
      ensures |lts.boxes| == |Queues(lts.boxes)| == |old(Queues(lts.boxes))| == BOX_LEVEL_CNT
      ensures ret == asked - old(asked) && pug == pug0 - ret && (firstwhile || (ugc > 0 && pug == 0))
      ensures var q, t := old(Queues(lts.boxes)), Top(old(Queues(lts.boxes)), lblevel);
              steps > 0 && Calm(q, old(lts.loaded), pug0, ugc) ==>
                if q[t] != [] then AsksFirst(answers, old(Now()), Now(), t)
                else Now() == old(Now()) && left == steps && q[lblevel] == []
      ensures lblevel > 0 && !Fills(old(Queues(lts.boxes)), lblevel + 1) ==>
          Through(old(Queues(lts.boxes)), Queues(lts.boxes), lblevel, Cnt2Go(0, pug0, ugc), ret, pug, left)
    {
      hide Boxes.Agree, Queues, Went, AsksFirst, Begins, Told, Through, Top, Least, AllLearnt, Stuck, CanLoad, Cnt2Go;
      lts.Sizes();
      TopIs(Queues(lts.boxes), lblevel);
      ret, pug, left := GoLbox(lblevel, Clean, pug0, ugc, steps);
      lts.Sizes();
    }

    /**
     * One circle of the walk: boxes 0 and 1, then 0 to 2, 0 to 3, 0 to 4; the very first box 0 is left out, and the
     * circle is left when the user's number is used up.
     */
    method Circle(k0: nat, pug0: int, ugc: int, steps: nat) returns (ret: int, pug: int, left: nat, k: nat)
      requires lts.Valid() && firstwhile
      modifies lts, this
      decreases steps, 12
      ensures lts.Valid() && Went(answers, old(Now()), Now()) && left <= steps
      ensures |lts.boxes| == |Queues(lts.boxes)| == |old(Queues(lts.boxes))| == BOX_LEVEL_CNT
      ensures ret == asked - old(asked) && pug == pug0 - ret && k > k0 && (firstwhile || (ugc > 0 && pug == 0))
      ensures var q := old(Queues(lts.boxes));
              Calm(q, old(lts.loaded), pug0, ugc) && steps > 0 && Least(q, 1) < 5 ==>
                AsksFirst(answers, old(Now()), Now(), Top(q, Least(q, 1)))
    {
      hide Boxes.Agree, Queues, Went, AsksFirst, Begins, Told, Through, Top, MaxGo, Least, Calm, SoFar;
      ghost var s, q0 := Now(), Queues(lts.boxes);
      lts.Sizes();
      WentNowhere(answers, s);
      ret, pug, left, k := 0, pug0, steps, k0;
      ghost var calm := Calm(q0, lts.loaded, pug, ugc) && steps > 0 && Least(q0, 1) < 5;
      ghost var f := if calm then Top(q0, Least(q0, 1)) else 5;
      CalmMeans(q0, lts.loaded, pug, ugc);
      SoFarBegun(answers, s, q0, 1, f);
      var i := 1;
      while i <= 4
        invariant 1 <= i <= 5 && left <= steps && firstwhile && k >= k0 && (k == k0 ==> i == 1)
        invariant lts.Valid() && |lts.boxes| == BOX_LEVEL_CNT && |Queues(lts.boxes)| == BOX_LEVEL_CNT
        invariant Went(answers, s, Now()) && ret == asked - old(asked) && pug == pug0 - ret
        invariant calm ==> SoFar(answers, s, Now(), q0, i, f, left == steps)
        decreases 5 - i
      {
        var j := 0;
        while j <= i
          invariant 0 <= j <= i + 1 && i <= 4 && left <= steps && firstwhile && k >= k0
            && (k == k0 ==> i == 1 && j == 0)
          invariant lts.Valid() && |lts.boxes| == BOX_LEVEL_CNT && |Queues(lts.boxes)| == BOX_LEVEL_CNT
          invariant Went(answers, s, Now()) && ret == asked - old(asked) && pug == pug0 - ret
          invariant calm ==> SoFar(answers, s, Now(), q0, Max(i, j), f, left == steps)
          decreases i + 1 - j
        {
          if k != 0 {
            var r;
            ghost var u, same := Now(), left == steps;
            r, pug, left := Visit(j, pug, ugc, left);
            ret := ret + r;
            WentOn(answers, s, u, Now());
            if calm { Further(answers, s, u, Now(), q0, i, j, f, same, left == steps); }
            if ugc > 0 && pug == 0 {
              k := k + 1;
              if calm { SoFarMoved(answers, s, Now(), q0, Max(i, j + 1), f, left == steps); }
              return;
            }
          }
          k := k + 1;
          j := j + 1;
        }
        i := i + 1;
      }
      if calm { SoFarDone(answers, s, Now(), q0, f, left == steps); }
    }

    /** Circles through the boxes, over and over until all items are in the last box. */
    method WalkBoxes(pug0: int, ugc: int, steps: nat) returns (ret: int, pug: int, left: nat)
      requires lts.Valid()
      modifies lts, this
      decreases steps, 3
      ensures lts.Valid() && Went(answers, old(Now()), Now()) && left <= steps
      ensures |Queues(lts.boxes)| == |old(Queues(lts.boxes))| == BOX_LEVEL_CNT
      ensures ret == asked - old(asked) && pug == pug0 - ret
      ensures firstwhile == old(firstwhile) || (ugc > 0 && pug == 0)
      ensures old(firstwhile) ==> Now() == old(Now()) && left == steps
      ensures !old(firstwhile) && left > 0 && !(ugc > 0 && pug == 0) ==> AllLearnt(Now())
      ensures var q := old(Queues(lts.boxes));
              !old(firstwhile) && Calm(q, old(lts.loaded), pug0, ugc) && steps > 1 ==>
                Starts(answers, old(Now()), Now(), if Least(q, 1) < 5 then Top(q, Least(q, 1)) else 5)
    {
      hide Boxes.Agree, Queues, Went, AsksFirst, Begins, Told, Through, Top, MaxGo, Least, Calm;
      ghost var s, q0 := Now(), Queues(lts.boxes);
      lts.Sizes();
      WentNowhere(answers, s);
      ret, pug, left := 0, pug0, steps;
      var k := 0;
      ghost var calm := !firstwhile && Calm(q0, lts.loaded, pug, ugc) && steps > 1;
      ghost var f := if Least(q0, 1) < 5 then Top(q0, Least(q0, 1)) else 5;
      CalmMeans(q0, lts.loaded, pug, ugc);
      assert calm && f == 5 ==> |q0[5]| == lts.loaded;
      while !firstwhile && lts.boxes[5].cnt < lts.loaded && left != 0
        invariant lts.Valid() && |lts.boxes| == BOX_LEVEL_CNT && |Queues(lts.boxes)| == BOX_LEVEL_CNT
        invariant lts.boxes[5].cnt == |Queues(lts.boxes)[5]| <= lts.loaded
        invariant Went(answers, s, Now()) && left <= steps && ret == asked - old(asked) && pug == pug0 - ret
        invariant firstwhile == old(firstwhile) && (old(firstwhile) ==> Now() == s && left == steps)
        invariant calm ==> (Now() == s && left == steps && pug == pug0) || (f < 5 && AsksFirst(answers, s, Now(), f))
        decreases left
      {
        ghost var u, calmer := Now(), Now() == s && left == steps && pug == pug0;
        firstwhile := true;
        var r;
        r, pug, left, k := Circle(k, pug, ugc, left - 1);
        ret := ret + r;
        WentOn(answers, s, u, Now());
        if calm && !calmer { StillFirst(s, u, Now(), f); }
        if ugc > 0 && pug == 0 {
          return;
        }
        firstwhile := false;
        lts.Sizes();
      }
    }

    lemma CalmMeans(q: seq<seq<int>>, loaded: nat, pug: int, ugc: int)
      requires |q| == BOX_LEVEL_CNT
      ensures Calm(q, loaded, pug, ugc) ==>
          q[0] == [] && |q[1]| <= MIN_VIS_IN_LBOX0_TO_RELOAD && !(ugc != 0 && pug == 0)
    {
    }

    /**
     * cmd_go: whatever the answers, each goes with the item that was at the head of its box; each queue with what came
     * to it behind is what left it and then what it has become. A session that ends by itself has asked for as many
     * items as the user wanted, or all are in the last box.
     */
    method CmdGo(cnt: int, steps: nat) returns (ret: int, left: nat)
      requires lts.Valid()
      modifies lts, this
      ensures lts.Valid() && Went(answers, old(Now()), Now()) && ret == asked - old(asked) && left <= steps
      ensures Told(old(Queues(lts.boxes)), Queues(lts.boxes), lts.log[|old(lts.log)|..])
      ensures EachOnce(lts.boxes, lts.level, lts.loaded)
      ensures left > 0 ==> (cnt > 0 && ret == cnt) || AllLearnt(Now())
      ensures |old(Queues(lts.boxes))| == BOX_LEVEL_CNT
      ensures var q := old(Queues(lts.boxes));
              steps > 1 ==>
                Starts(answers, old(Now()), Now(), FirstUp(q, CanLoad(q, old(lts.loaded), lts.total, lts.perLoad)))
      ensures var q := old(Queues(lts.boxes));
              !Fills(q, 1) && Stuck(q, 0, cnt, cnt, answers(old(asked))) ==> left == 0
    {
      hide Boxes.Agree, Queues, Went, AsksFirst, Begins, Top, AllLearnt, Least, Stuck, Onward, Starts, FirstUp, CanLoad,
        Told, Through, MaxGo, EachOnce;
      ghost var s := Now();
      ghost var boxes0, log0, q0 := lts.boxes, lts.log, Queues(lts.boxes);
      lts.Sizes();
      lts.Record();
      TopIs(q0, 0);
      firstwhile := false;
      var pug;
      ret, pug, left := GoLbox(0, Push, cnt, cnt, steps);
      if steps > 1 { StartsSo(answers, s, Now(), lts.total, lts.perLoad, steps, left); }
      WentGrows(answers, s, Now());
      lts.Since(boxes0, log0);
      lts.Record();
    }
  }

  /** `k` items in box 1, and the rest of the last load in box 0. */
  predicate Filling(q: seq<seq<int>>, loaded: int, k: int) {
    |q| == BOX_LEVEL_CNT && |q[1]| == k && |q[0]| == (4 - k % 4) % 4 && loaded == k + |q[0]|
  }

  /** One more item for box 1. */
  method OneMore(lts: Boxes, ghost k: int)
    requires lts.Valid() && lts.total == 100 && lts.perLoad == 30 && 0 <= k < 11
      && Filling(Queues(lts.boxes), lts.loaded, k)
    modifies lts
    ensures lts.Valid() && Filling(Queues(lts.boxes), lts.loaded, k + 1)
  {
    hide Boxes.Agree, Queues, Moved;
    lts.Sizes();
    if lts.boxes[0].cnt == 0 {
      var n := lts.Load(false, 0);
      lts.Sizes();
    }
    MovedSizes(Queues(lts.boxes), 0, 1);
    lts.MoveToLbox(1, 0);
    lts.Sizes();
  }

  /** Eleven items in box 1, one short of its limit, and one in box 0. */
  method AlmostFull() returns (lts: Boxes)
    ensures fresh(lts) && lts.Valid() && |lts.boxes[0].queue| == 1 && |lts.boxes[1].queue| == 11
  {
    hide Sorted, Chained, Items, AllChained, Told, Brought;
    lts := new Boxes(100, 30);
    var k := 0;
    while k < 11
      invariant 0 <= k <= 11 && fresh(lts) && lts.Valid() && lts.total == 100 && lts.perLoad == 30
      invariant Filling(Queues(lts.boxes), lts.loaded, k)
      decreases 11 - k
    {
      OneMore(lts, k);
      k := k + 1;
    }
    QueueAt(lts.boxes, 0);
    QueueAt(lts.boxes, 1);
  }

  /**
   * The one item that the user asked to be asked for fills box 1: way is to be made there, but nothing may be asked for
   * any more, and however many rounds there are, all are used up.
   */
  method NeverMakesWay(steps: nat) returns (left: nat)
    ensures left == 0
  {
    hide Boxes.Agree, Told;
    var lts := AlmostFull();
    lts.Sizes();
    var s := new Session(lts, _ => false);
    var ret;
    ret, left := s.CmdGo(1, steps);
  }
}
