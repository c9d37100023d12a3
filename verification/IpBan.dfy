/** The list of banned address ranges: a binary tree that rotates while it is
    walked. */
module IpBan {
  import opened BanTree
  import opened BanStore

  /** What a walk for val through the tree t at link at leaves: the tree t', with
      the same ranges in the same order. */
  ghost predicate Walked(st: Store, st': Store, at: int, t: Tree, t': Tree, val: int) {
    && Shaped(st) && Standing(st', at, t') && InOrder(t') == InOrder(t)
    && Changed(st, st', at, Ids(t)) && ShapeKept(t, t', val)
  }

  /** The walk has come down to the place p of T, where hnd is the link. */
  ghost predicate Walking(st: Store, st': Store, at: int, t: Tree, T: Tree, p: Path, hnd: int, val: int) {
    && Walked(st, st', at, t, T, val)
    && IsPath(T, p) && LinkOf(at, T, p) == hnd
    && Under(Before(T, p), val) && Over(After(T, p), val)
  }

  lemma WalkStarts(st: Store, at: int, t: Tree, val: int)
    requires Standing(st, at, t)
    ensures Walking(st, st, at, t, t, [], at, val)
  {
  }

  /** The tree at the place that the walk has reached. */
  lemma WalkSub(st: Store, st': Store, at: int, t: Tree, T: Tree, p: Path, hnd: int, val: int)
    requires Walking(st, st', at, t, T, p, hnd, val)
    ensures Standing(st', hnd, Sub(T, p)) && Size(Sub(T, p)) <= Size(t)
    ensures if p == [] then hnd == at else hnd / 2 in Ids(T) - Ids(Sub(T, p))
    ensures Ids(Sub(T, p)) <= Ids(T) == Ids(t)
  {
    hide Before, After, Replace, Under, Over, Changed, ShapeKept, Sorted;
    HoldsBounds(st', at, T);
    HoldsSub(st', at, T, p);
    SubIds(T, p);
    LinkInside(at, T, p);
    ReplaceOrder(T, p, Leaf);
    SortedMiddle(Before(T, p), InOrder(Sub(T, p)), After(T, p));
    SameOrderSameIds(t, T);
    SizeIs(t);
    SizeIs(Sub(T, p));
  }

  lemma SortedMiddle(a: seq<Node>, x: seq<Node>, b: seq<Node>)
    requires Sorted(a + x + b)
    ensures Sorted(x)
  {
    SortedHalves(a + x, b);
    SortedHalves(a, x);
  }

  /** The walk goes one step down. */
  lemma WalkDown(st: Store, st': Store, at: int, t: Tree, T: Tree, p: Path, hnd: int, val: int, d: bool)
    requires Walking(st, st', at, t, T, p, hnd, val) && Sub(T, p).Fork?
    requires var n := Sub(T, p).node; if d then n.top < val else val < n.bot
    ensures IsPath(T, p + [d]) && Sub(T, p + [d]) == Kid(Sub(T, p), d)
    ensures Walking(st, st', at, t, T, p + [d], LinkTo(Sub(T, p).node.id, d), val)
    ensures Size(Sub(T, p + [d])) < Size(Sub(T, p))
  {
    hide Before, After, Replace, Changed, ShapeKept, InOrder, LinkOf, Sub, IsPath, Sorted, Under, Over, Distinct, Holds;
    PathDown(T, p, d);
    LinkDown(at, T, p, d);
    var c := Sub(T, p);
    WalkSub(st, st', at, t, T, p, hnd, val);
    WalkSides(c, val, d);
    if d {
      UnderJoins(Before(T, p), InOrder(c.prv) + [c.node], val);
      DropEmpty(After(T, p));
    } else {
      OverJoins([c.node] + InOrder(c.nxt), After(T, p), val);
      DropEmpty(Before(T, p));
    }
  }

  lemma WalkSides(c: Tree, val: int, d: bool)
    requires c.Fork? && Sorted(InOrder(c)) && if d then c.node.top < val else val < c.node.bot
    ensures if d then Under(InOrder(c.prv) + [c.node], val) else Over([c.node] + InOrder(c.nxt), val)
  {
    SortedParts(InOrder(c.prv), c.node, InOrder(c.nxt));
  }

  lemma UnderJoins(a: seq<Node>, b: seq<Node>, val: int)
    requires Under(a, val) && Under(b, val)
    ensures Under(a + b, val)
  {
  }

  lemma OverJoins(a: seq<Node>, b: seq<Node>, val: int)
    requires Over(a, val) && Over(b, val)
    ensures Over(a + b, val)
  {
  }

  /** The walk rotates the tree at its place. */
  lemma WalkTurns(st: Store, st1: Store, st2: Store, at: int, t: Tree, T: Tree, p: Path, hnd: int, val: int, c: Tree)
    requires Walking(st, st1, at, t, T, p, hnd, val) && Sub(T, p).Fork?
    requires Standing(st2, hnd, c) && InOrder(c) == InOrder(Sub(T, p)) && Changed(st1, st2, hnd, Ids(Sub(T, p)))
    requires ShapeKept(Sub(T, p), c, val)
    ensures var T' := Replace(T, p, c);
            Walking(st, st2, at, t, T', p, hnd, val) && Sub(T', p) == c
  {
    hide Before, After, Replace, InOrder, Holds, Sub, IsPath, Ids, Distinct, Sorted, Under, Over, ShapeKept, LinkOf;
    var T' := Replace(T, p, c);
    WalkSub(st, st1, at, t, T, p, hnd, val);
    SameOrderSameIds(c, Sub(T, p));
    ReplaceOrder(T, p, c);
    ReplaceIds(T, p, c);
    ReplacePath(T, p, c);
    LinkReplace(at, T, p, c);
    HoldsReplace(st1, st2, at, T, p, c, Ids(c));
    ChangedMore(st1, st2, hnd, Ids(c), at, Ids(t));
    ChangedTrans(st, st1, st2, at, Ids(t));
    TurnShape(t, T, p, c, val);
  }

  lemma TurnShape(t: Tree, T: Tree, p: Path, c: Tree, val: int)
    requires IsPath(T, p) && Sub(T, p).Fork? && ShapeKept(t, T, val) && InOrder(t) == InOrder(T) && Sorted(InOrder(T))
    requires Under(Before(T, p), val) && Over(After(T, p), val)
    requires ShapeKept(Sub(T, p), c, val) && InOrder(c) == InOrder(Sub(T, p))
    ensures ShapeKept(t, Replace(T, p, c), val)
  {
    hide InOrder, Sorted;
    if p == [] {
      ShapeTrans(t, T, c, val);
    } else {
      Beyond(T, p, val);
      DeepReplaceShape(T, p, c, val);
      ReplaceOrder(T, p, c);
      ShapeTrans(t, T, Replace(T, p, c), val);
    }
  }

  lemma Beyond(T: Tree, p: Path, val: int)
    requires IsPath(T, p) && Sorted(InOrder(T)) && Under(Before(T, p), val) && Over(After(T, p), val)
    ensures Under(InOrder(T), val) ==> After(T, p) == []
    ensures Over(InOrder(T), val) ==> Before(T, p) == []
  {
    hide InOrder, Before, After, Sub;
    ReplaceOrder(T, p, Leaf);
    var a, x, b := Before(T, p), InOrder(Sub(T, p)), After(T, p);
    if a != [] {
      SplitAt(a, x, b, 0);
    }
    if b != [] {
      SplitAt(a, x, b, |a| + |x|);
    }
  }

  lemma ShapeTrans(t: Tree, t': Tree, t'': Tree, val: int)
    requires ShapeKept(t, t', val) && ShapeKept(t', t'', val) && InOrder(t) == InOrder(t')
    ensures ShapeKept(t, t'', val)
  {
  }

  /** What the links of a node and of its children say about the tree. */
  lemma Family(st: Store, at: int, c: Tree)
    requires Shaped(st) && Holds(st, at, c)
    ensures 0 <= at < |st.links| && st.links[at] == RootId(c) && (RootId(c) == NULL <==> c.Leaf?)
    ensures c.Fork? ==> 0 < c.node.id < |st.hnd| && st.hnd[c.node.id] == at
    ensures c.Fork? ==> st.bot[c.node.id] == c.node.bot && st.top[c.node.id] == c.node.top
    ensures c.Fork? ==> KidIs(st, c, false) && KidIs(st, c, true)
    ensures c.Fork? && c.prv.Fork? ==> KidIs(st, c.prv, false) && KidIs(st, c.prv, true)
    ensures c.Fork? && c.nxt.Fork? ==> KidIs(st, c.nxt, false) && KidIs(st, c.nxt, true)
  {
    if c.Fork? {
      Kids(st, at, c);
      if c.prv.Fork? {
        Kids(st, LinkTo(c.node.id, false), c.prv);
      }
      if c.nxt.Fork? {
        Kids(st, LinkTo(c.node.id, true), c.nxt);
      }
    }
  }

  lemma StandingFamily(st: Store, at: int, c: Tree)
    requires Standing(st, at, c)
    ensures Shaped(st) && 0 <= at < |st.links| && st.links[at] == RootId(c) && (RootId(c) == NULL <==> c.Leaf?)
    ensures c.Fork? ==> 0 < c.node.id < |st.hnd| && st.hnd[c.node.id] == at
    ensures c.Fork? ==> KidIs(st, c, false) && KidIs(st, c, true)
  {
    Family(st, at, c);
  }

  lemma Kids(st: Store, at: int, c: Tree)
    requires Shaped(st) && Holds(st, at, c) && c.Fork?
    ensures KidIs(st, c, false) && KidIs(st, c, true)
    ensures Holds(st, LinkTo(c.node.id, false), c.prv) && Holds(st, LinkTo(c.node.id, true), c.nxt)
  {
  }

  /** A root with two children is not rotated again towards the same side. */
  lemma RotateFresh(c: Tree, d: bool)
    requires Rotates(c, d) && TwoKids(c)
    ensures !PairAt(c, !d)
  {
  }

  ghost predicate KidIs(st: Store, c: Tree, d: bool)
    requires c.Fork?
  {
    var k := LinkTo(c.node.id, d);
    0 <= k < |st.links| && st.links[k] == RootId(Kid(c, d)) && (RootId(Kid(c, d)) == NULL <==> Kid(c, d).Leaf?)
  }

  /** What earlier rotations at this place have brought about: two children, and
      a pair at the low or at the high end. */
  ghost predicate Tamed(c: Tree, two: bool, low: bool, high: bool) {
    && (two ==> TwoKids(c))
    && (low ==> TwoKids(c) && LowPair(c))
    && (high ==> TwoKids(c) && HighPair(c))
  }

  /** How many more rotations there can be at one place. */
  function TurnsLeft(two: bool, low: bool, high: bool): nat {
    (if two then 0 else 1) + (if low then 0 else 1) + (if high then 0 else 1)
  }

  lemma RotateSame(c: Tree, c': Tree, d: bool)
    requires Rotated(c, c', d)
    ensures InOrder(c') == InOrder(c) && Size(c') == Size(c)
  {
    SameOrderSameIds(c, c');
  }

  lemma TamedNone(c: Tree)
    ensures Tamed(c, false, false, false)
  {
  }

  lemma TurnTames(c: Tree, c': Tree, d: bool, two: bool, low: bool, high: bool)
    requires Tamed(c, two, low, high) && Rotates(c, d) && Rotated(c, c', d)
    ensures var two', low', high' := !TwoKids(c) || two, low || (d && TwoKids(c)), high || (!d && TwoKids(c));
            Tamed(c', two', low', high') && TurnsLeft(two', low', high') < TurnsLeft(two, low, high)
  {
    if TwoKids(c) {
      RotateFresh(c, d);
    }
  }

  /** The largest address. */
  const UINT_MAX := 0xFFFF_FFFF

  /** The address that is never left banned when the list was read. */
  const SPARED := 0xF700_0001

  class BanList {
    var links: seq<int>
    var hnd: seq<int>
    var bot: seq<int>
    var top: seq<int>
    var count: int
    ghost var tree: Tree

    function St(): Store
      reads this
    {
      Store(links, hnd, bot, top)
    }

    method NodeCut(i: nat)
      requires i < |hnd| && 0 <= hnd[i] < |links|
      modifies this`links, this`hnd
      ensures St() == Cut(old(St()), i)
    {
      if hnd[i] != NULL && links[hnd[i]] != NULL {
        links := links[hnd[i] := NULL];
        hnd := hnd[i := NULL];
      }
    }

    method NodeGlue(h: int, i: nat)
      requires 0 <= h < |links| && i < |hnd|
      modifies this`links, this`hnd
      ensures St() == Glue(old(St()), h, i)
    {
      if h != NULL {
        links := links[h := i];
      }
      if i != NULL {
        hnd := hnd[i := h];
      }
    }

    /** Whether the tree at node i is to be rotated, and to which side: the child
        there has a child on the same side, and either neither has one on the
        other side, or the other child is a leaf and this one has two. */
    method Leaning(i: nat, ghost c: Tree, ghost at: int) returns (right: bool, left: bool)
      requires Standing(St(), at, c) && c.Fork? && i == c.node.id
      ensures right <==> Rotates(c, true)
      ensures left <==> Rotates(c, false)
      ensures right ==> 0 <= LinkTo(i, true) < |links| && links[LinkTo(i, true)] == c.nxt.node.id
      ensures left ==> 0 <= LinkTo(i, false) < |links| && links[LinkTo(i, false)] == c.prv.node.id
    {
      hide Holds, Distinct, Sorted, InOrder;
      Family(St(), at, c);
      var pl, pr := links[LinkTo(i, false)], links[LinkTo(i, true)];
      right := pr != NULL && links[LinkTo(pr, true)] != NULL
        && ((pl == NULL && links[LinkTo(pr, false)] == NULL)
            || (pl != NULL && links[LinkTo(pl, false)] == NULL && links[LinkTo(pl, true)] == NULL
                && links[LinkTo(pr, false)] != NULL));
      left := pl != NULL && links[LinkTo(pl, false)] != NULL
        && ((pr == NULL && links[LinkTo(pl, true)] == NULL)
            || (pr != NULL && links[LinkTo(pr, false)] == NULL && links[LinkTo(pr, true)] == NULL
                && links[LinkTo(pl, true)] != NULL));
    }

    /** range_hnd: walk down to the place for val, with cheap rotations on the way. */
    method RangeHnd(at: int, val: int, ghost t: Tree) returns (h: int, ghost t': Tree, ghost p: Path)
      requires Standing(St(), at, t)
      modifies this`links, this`hnd
      ensures Walking(old(St()), St(), at, t, t', p, h, val) && PlaceFor(t', p, val)
      decreases Size(t), 2
    {
      hide Holds, ShapeKept, Changed, LowPair, HighPair, Replace, Before, After, Distinct, Sorted, InOrder, Under, Over,
        LinkOf, Rotates, Rotated, Outside, Size, Tamed, TurnsLeft;
      h := at;
      ghost var st := St();
      t', p := t, [];
      WalkStarts(st, at, t, val);
      Family(st, at, t);
      ghost var two, low, high := false, false, false;
      TamedNone(t);
      while links[h] != NULL
        invariant Walking(st, St(), at, t, t', p, h, val) && 0 <= h < |links|
        invariant Tamed(Sub(t', p), two, low, high)
        decreases Size(Sub(t', p)), TurnsLeft(two, low, high)
      {
        WalkSub(st, St(), at, t, t', p, h, val);
        ghost var c := Sub(t', p);
        Family(St(), h, c);
        var pp := links[h];
        var right, left := Leaning(pp, c, h);
        if right || left {
          ghost var st1 := St();
          ghost var c' := NodeRotate(pp, links[LinkTo(pp, right)], h, c, right);
          RotateKeeps(c, c', right, val);
          RotateSame(c, c', right);
          TurnTames(c, c', right, two, low, high);
          WalkTurns(st, st1, St(), at, t, t', p, h, val, c');
          t' := Replace(t', p, c');
          two, low, high := !TwoKids(c) || two, low || (right && TwoKids(c)), high || (!right && TwoKids(c));
        } else if val < bot[pp] {
          WalkDown(st, St(), at, t, t', p, h, val, false);
          h := LinkTo(pp, false);
          p := p + [false];
          two, low, high := false, false, false;
          TamedNone(Sub(t', p));
        } else if val > top[pp] {
          WalkDown(st, St(), at, t, t', p, h, val, true);
          h := LinkTo(pp, true);
          p := p + [true];
          two, low, high := false, false, false;
          TamedNone(Sub(t', p));
        } else {
          break;
        }
      }
      WalkSub(st, St(), at, t, t', p, h, val);
      Family(St(), h, Sub(t', p));
    }

    /** node_app: hang a loose node, with what hangs from it, in its place. */
    method NodeApp(at: int, i: nat, ghost t: Tree, ghost s: Tree) returns (ghost t1: Tree, ghost p: Path)
      requires Standing(St(), at, t) && Loose(St(), s) && i == s.node.id
      requires Ids(s) !! Ids(t) && at / 2 !in Ids(s) && Fits(InOrder(t), InOrder(s))
      modifies this`links, this`hnd
      ensures AppendedAt(t, s, t1, p) && Standing(St(), at, Replace(t1, p, s))
      ensures Changed(old(St()), St(), at, Ids(t) + Ids(s))
      decreases Size(t), 3
    {
      hide Holds, ShapeKept, LowPair, HighPair, Replace, Before, After, Distinct, Sorted, InOrder, Under, Over, LinkOf,
        Sub, Fits;
      ghost var st := St();
      var h;
      h, t1, p := RangeHnd(at, bot[i], t);
      LooseKept(st, St(), at, Ids(t), s);
      SameOrderSameIds(t, t1);
      ghost var st1 := St();
      Appended(st1, at, t1, p, s);
      NodeGlue(h, i);
      ChangedMore(st, st1, at, Ids(t), at, Ids(t) + Ids(s));
      ChangedTrans(st, st1, St(), at, Ids(t) + Ids(s));
      PlaceFits(t1, p, s);
    }

    /** node_rotate: the child takes the place of its parent, which is appended
        to it again. */
    method NodeRotate(o: int, n: int, ghost at: int, ghost c: Tree, ghost d: bool) returns (ghost c': Tree)
      requires Standing(St(), at, c) && Rotates(c, d) && o == c.node.id && n == Kid(c, d).node.id
      modifies this`links, this`hnd
      ensures Standing(St(), at, c') && Changed(old(St()), St(), at, Ids(c)) && Rotated(c, c', d)
      decreases Size(c), 1
    {
      hide Holds, ShapeKept, LowPair, HighPair, Replace, Before, After, Distinct, Sorted, InOrder, Under, Over, LinkOf,
        Sub, Fits, Rotated;
      ghost var st := St();
      ghost var k, s := Kid(c, d), WithKid(c, d, Leaf);
      LiftChild(st, at, c, d);
      var h := hnd[o];
      NodeCut(o);
      NodeCut(n);
      NodeGlue(h, n);
      ghost var st1 := St();
      LiftFits(c, d);
      ghost var t1, p := NodeApp(h, o, k, s);
      c' := Replace(t1, p, s);
      ChangedTrans(st, st1, St(), at, Ids(c));
      RotateShape(c, d, t1, p);
      RotateOrder(c, d, t1, p);
    }

    /** node_harvest: take some node with at most one child out of the tree. */
    method NodeHarvest(r: nat, ghost at: int, ghost t: Tree) returns (i: nat, ghost t': Tree, ghost n: Node)
      requires Standing(St(), at, t) && r == RootId(t)
      modifies this`links, this`hnd
      ensures i == NULL <==> t.Leaf?
      ensures t.Leaf? ==> St() == old(St()) && t' == t
      ensures t.Fork? ==> Plucked(St(), at, t, t', n) && Changed(old(St()), St(), at, Ids(t)) && i == n.id
    {
      hide Holds, Replace, Before, After, Distinct, Sorted, InOrder, LinkOf, Sub, Changed, Outside, Elems, Loose,
        Standing, Plucked;
      StandingFamily(St(), at, t);
      if r == NULL {
        i, t', n := NULL, t, Node(0, 0, 0);
        return;
      }
      i := r;
      ghost var p: Path := [];
      SubStands(St(), at, t, p);
      while links[LinkTo(i, false)] != NULL && links[LinkTo(i, true)] != NULL
        invariant St() == old(St()) && IsPath(t, p) && Sub(t, p).Fork?
        invariant i == Sub(t, p).node.id && Standing(St(), LinkOf(at, t, p), Sub(t, p))
        invariant KidIs(St(), Sub(t, p), false) && KidIs(St(), Sub(t, p), true)
        decreases Size(Sub(t, p))
      {
        StandingFamily(St(), LinkOf(at, t, p), Sub(t, p));
        var d := *;
        PathDown(t, p, d);
        i := links[LinkTo(i, d)];
        p := p + [d];
        SubStands(St(), at, t, p);
        StandingFamily(St(), LinkOf(at, t, p), Sub(t, p));
      }
      ghost var c := Sub(t, p);
      StandingFamily(St(), LinkOf(at, t, p), c);
      n := c.node;
      t' := Replace(t, p, OnlyKid(c));
      PluckStore(St(), LinkOf(at, t, p), c);
      PluckWhole(St(), Pluck(St(), c.node.id), at, t, p);
      var h := hnd[i];
      NodeCut(i);
      if links[LinkTo(i, false)] != NULL {
        NodeGlue(h, links[LinkTo(i, false)]);
        links := links[LinkTo(i, false) := NULL];
      } else if links[LinkTo(i, true)] != NULL {
        NodeGlue(h, links[LinkTo(i, true)]);
        links := links[LinkTo(i, true) := NULL];
      }
    }

    /** One node from under the loose node i moves to the tree at link at. */
    method MoveOne(at: int, i: nat, d: bool, ghost a: Tree, ghost l: Tree, ghost r: Tree, ghost u: seq<Node>)
      returns (ghost a': Tree, ghost l': Tree, ghost r': Tree)
      requires Consuming(St(), at, i, a, l, r, u) && (if d then r else l).Fork?
      modifies this`links, this`hnd
      ensures Consuming(St(), at, i, a', l', r', u) && Size(l') + Size(r') < Size(l) + Size(r)
      ensures Changed(old(St()), St(), at, Ids(a) + Ids(l) + Ids(r) + {i})
      ensures Ids(a') + Ids(l') + Ids(r') == Ids(a) + Ids(l) + Ids(r)
      ensures if d then l' == l else r' == r
    {
      hide Holds, Standing, Distinct, Sorted, InOrder, Elems, Fits, Replace, Ids, ShapeKept, Before, After, Sub, Size,
        Outside, Changed, Loose;
      ghost var st, x, y := St(), if d then r else l, if d then l else r;
      ConsumingRoot(st, at, i, a, l, r, u, d);
      var c;
      ghost var x', n;
      c, x', n := NodeHarvest(links[LinkTo(i, d)], LinkTo(i, d), x);
      ghost var st1 := St();
      HarvestLeaves(st, st1, at, i, a, x, y, u, d, x', n);
      ghost var t1, p := NodeApp(at, c, a, Single(n));
      a' := Replace(t1, p, Single(n));
      l', r' := if d then y else x', if d then x' else y;
      MovedOne(st, st1, St(), at, i, a, x, y, u, d, x', n, t1, p);
      SidesAgree(a, x, y, a', x', d, i, n);
    }

    /** node_del: take the root of a subtree out, putting what hangs from it in
        its place, node by node if need be. */
    method NodeDel(i: nat, ghost at: int, ghost t: Tree) returns (ghost t': Tree)
      requires Standing(St(), at, t) && t.Fork? && i == t.node.id
      modifies this`links, this`hnd
      ensures Deleted(St(), at, t, t') && Changed(old(St()), St(), at, Ids(t))
    {
      hide Holds, Standing, Distinct, Sorted, InOrder, Elems, Fits, Replace, Ids, ShapeKept, Outside, Changed, Loose,
        Size;
      ghost var st := St();
      Family2(st, at, t);
      if links[LinkTo(i, false)] != NULL && links[LinkTo(i, true)] != NULL {
        CutConsumes(st, at, t);
        var h := hnd[i];
        NodeCut(i);
        t' := Consume(h, i, t, st);
      } else {
        PluckStore(st, at, t);
        DeletedOne(Pluck(st, i), at, t);
        var h := hnd[i];
        NodeCut(i);
        if links[LinkTo(i, false)] != NULL {
          NodeGlue(h, links[LinkTo(i, false)]);
          links := links[LinkTo(i, false) := NULL];
        } else if links[LinkTo(i, true)] != NULL {
          NodeGlue(h, links[LinkTo(i, true)]);
          links := links[LinkTo(i, true) := NULL];
        }
        t' := OnlyKid(t);
      }
    }

    /** Move everything under the loose node i to link at. */
    method Consume(at: int, i: nat, ghost t: Tree, ghost st: Store) returns (ghost a: Tree)
      requires t.Fork? && i == t.node.id && Consuming(St(), at, i, Leaf, t.prv, t.nxt, InOrder(t.prv) + InOrder(t.nxt))
      requires Shaped(st) && Changed(st, St(), at, Ids(t)) && Distinct(t)
      requires St().bot[i] == t.node.bot && St().top[i] == t.node.top && t.node.bot <= t.node.top
      modifies this`links, this`hnd
      ensures Deleted(St(), at, t, a) && Changed(st, St(), at, Ids(t))
    {
      hide Holds, Standing, Distinct, Sorted, InOrder, Elems, Fits, Replace, ShapeKept, Outside, Changed, Loose,
        Consuming, Size, Ids;
      ghost var l, r, u := t.prv, t.nxt, InOrder(t.prv) + InOrder(t.nxt);
      a := Leaf;
      ghost var ids := Ids(l) + Ids(r);
      ForkIds(t);
      ConsumingRoot(St(), at, i, a, l, r, u, false);
      ConsumingRoot(St(), at, i, a, l, r, u, true);
      while links[LinkTo(i, false)] != NULL && links[LinkTo(i, true)] != NULL
        invariant Consuming(St(), at, i, a, l, r, u) && St().bot == old(St().bot) && St().top == old(St().top)
        invariant Ids(a) + Ids(l) + Ids(r) == ids && Changed(st, St(), at, Ids(t))
        invariant Links(links, i, l, r)
        decreases Size(l) + Size(r)
      {
        var d := *;
        ghost var st1, b, x, y := St(), a, l, r;
        a, l, r := MoveOne(at, i, d, a, l, r, u);
        ConsumedMore(st, st1, St(), at, t, b, x, y, ids);
        ConsumingRoot(St(), at, i, a, l, r, u, false);
        ConsumingRoot(St(), at, i, a, l, r, u, true);
      }
      while links[LinkTo(i, false)] != NULL
        invariant Consuming(St(), at, i, a, l, r, u) && St().bot == old(St().bot) && St().top == old(St().top)
        invariant Ids(a) + Ids(l) + Ids(r) == ids && Changed(st, St(), at, Ids(t))
        invariant Links(links, i, l, r)
        decreases Size(l) + Size(r)
      {
        ghost var st1, b, x, y := St(), a, l, r;
        a, l, r := MoveOne(at, i, false, a, l, r, u);
        ConsumedMore(st, st1, St(), at, t, b, x, y, ids);
        ConsumingRoot(St(), at, i, a, l, r, u, false);
        ConsumingRoot(St(), at, i, a, l, r, u, true);
      }
      while links[LinkTo(i, true)] != NULL
        invariant Consuming(St(), at, i, a, l, r, u) && St().bot == old(St().bot) && St().top == old(St().top)
        invariant Ids(a) + Ids(l) + Ids(r) == ids && Changed(st, St(), at, Ids(t))
        invariant Links(links, i, l, r) && l.Leaf?
        decreases Size(l) + Size(r)
      {
        ghost var st1, b, x, y := St(), a, l, r;
        a, l, r := MoveOne(at, i, true, a, l, r, u);
        ConsumedMore(st, st1, St(), at, t, b, x, y, ids);
        ConsumingRoot(St(), at, i, a, l, r, u, false);
        ConsumingRoot(St(), at, i, a, l, r, u, true);
      }
      ConsumedAll(St(), at, t, a, l, r, u);
    }

    // Whole ranges ----------------------------------------------------------------------------

    /** The tree hangs from the root link and is searched in order; its ranges
        are neither adjacent nor overlapping, and their number is known. */
    ghost predicate Valid()
      reads this
    {
      Standing(St(), ROOT, tree) && Separated(InOrder(tree)) && count == |InOrder(tree)| && Addresses(InOrder(tree))
    }

    /** The banned addresses. */
    ghost predicate Bans(x: int)
      reads this
    {
      Covers(InOrder(tree), x)
    }

    constructor ()
      ensures Valid() && InOrder(tree) == []
    {
      links, hnd, bot, top := [NULL, NULL, NULL, NULL], [NULL, NULL], [0, 0], [0, 0];
      count := 0;
      tree := Leaf;
    }

    /** range_harvest: move all ranges that overlap [b, t] to a tree of their own. */
    method RangeHarvest(b: int, t: int) returns (r: nat, ghost y: Tree)
      requires Standing(St(), ROOT, tree)
      modifies this`links, this`hnd, this`tree
      ensures Standing(St(), ROOT, tree) && Standing(St(), YIELD, y) && Ids(tree) !! Ids(y) && r == RootId(y)
      ensures Parted(old(InOrder(tree)), InOrder(tree), InOrder(y), b, t)
    {
      hide Holds, Standing, Distinct, Sorted, InOrder, Elems, Replace, Ids, ShapeKept, Outside, Changed, Loose, Size,
        Before, After, Sub, LinkOf, Under, Over, IsPath, Harvesting, Parted;
      ghost var u, p := InOrder(tree), [];
      y := Leaf;
      StartHarvest(St(), tree, b, t);
      links := links[YIELD := NULL];
      var h := ROOT;
      HarvestAt(St(), u, tree, p, y, b, t, h);
      while links[h] != NULL
        invariant Harvesting(St(), u, tree, p, y, b, t, h)
        invariant IsPath(tree, p) && 0 <= h < |links| && (links[h] == NULL <==> Sub(tree, p).Leaf?)
        decreases Size(Sub(tree, p))
      {
        HarvestAt(St(), u, tree, p, y, b, t, h);
        var pp := links[h];
        if bot[pp] > t {
          HarvestDown(St(), u, tree, p, y, b, t, h, false);
          h, p := LinkTo(pp, false), p + [false];
        } else if top[pp] < b {
          HarvestDown(St(), u, tree, p, y, b, t, h, true);
          h, p := LinkTo(pp, true), p + [true];
        } else {
          ghost var st, c := St(), Sub(tree, p);
          ghost var c' := NodeDel(pp, h, c);
          ghost var st1 := St();
          HarvestOut(st, st1, u, tree, p, y, b, t, h, c');
          ghost var y1, q := NodeApp(YIELD, pp, y, Single(c.node));
          HarvestIn(st, st1, St(), u, tree, p, y, b, t, h, c, c', y1, q);
          tree, y := Replace(tree, p, c'), Replace(y1, q, Single(c.node));
        }
        HarvestAt(St(), u, tree, p, y, b, t, h);
      }
      HarvestDone(St(), u, tree, p, y, b, t, h);
      r := links[YIELD];
    }

    /** node_new, which counts the node. */
    method NodeNew(b: int, t: int) returns (i: nat)
      requires Shaped(St())
      modifies this
      ensures tree == old(tree) && St() == Grown(old(St()), b, t) && i == old(|hnd|) && count == old(count) + 1
    {
      i := |hnd|;
      links, hnd, bot, top := links + [NULL, NULL], hnd + [NULL], bot + [b], top + [t];
      count := count + 1;
    }

    /** A new range that touches no other is stored. */
    method Insert(b: int, t: int, ghost y: Tree)
      requires Standing(St(), ROOT, tree) && Standing(St(), COPY, y) && Ids(tree) !! Ids(y) && b <= t
      requires forall x :: b <= x <= t ==> !Covers(InOrder(tree), x)
      modifies this
      ensures Standing(St(), ROOT, tree) && Standing(St(), COPY, y) && Ids(tree) !! Ids(y)
      ensures Stored(old(InOrder(tree)), InOrder(tree), b, t) && count == old(count) + 1
      ensures links[COPY] == old(links[COPY]) && old(bot) <= bot && old(top) <= top
    {
      hide Holds, Distinct, Sorted, InOrder, Elems, Replace, Ids, ShapeKept, Outside, Changed, Loose, Covers, Fits,
        Before, After, Sub, Stored, Under, Over;
      ghost var st, n := St(), Node(|hnd|, b, t);
      GrownStands(st, b, t, ROOT, tree);
      GrownStands(st, b, t, COPY, y);
      GrownLoose(st, b, t, tree, y);
      var i := NodeNew(b, t);
      ghost var st1 := St();
      ghost var t1, p := NodeApp(ROOT, i, tree, Single(n));
      InsertKeeps(st1, St(), tree, y, n, t1, p);
      InsertStores(tree, n, t1, p);
      tree := Replace(t1, p, Single(n));
    }

    /** The harvest becomes the caller's. */
    method TakeOver(r: nat, ghost y: Tree)
      requires Standing(St(), ROOT, tree) && Standing(St(), YIELD, y) && Ids(tree) !! Ids(y) && r == RootId(y)
      modifies this`links, this`hnd
      ensures Standing(St(), ROOT, tree) && Standing(St(), COPY, y) && links[COPY] == r
    {
      hide Sorted, Distinct, InOrder;
      TakenOver(St(), tree, y);
      links := links[COPY := r];
      if r != NULL {
        hnd := hnd[r := COPY];
      }
    }

    /** One node out of the harvest, which leaves the list alone. */
    method Next(ghost y: Tree) returns (i: nat, ghost y': Tree, ghost n: Node)
      requires Standing(St(), ROOT, tree) && Standing(St(), COPY, y) && Ids(tree) !! Ids(y)
      modifies this`links, this`hnd
      ensures Standing(St(), ROOT, tree) && Standing(St(), COPY, y') && Ids(tree) !! Ids(y')
      ensures bot == old(bot) && top == old(top)
      ensures i == NULL <==> y.Leaf?
      ensures y.Leaf? ==> y' == y
      ensures y.Fork? ==> Known(St(), n) && i == n.id && Without(y, y', n)
    {
      hide Holds, Sorted, Distinct, InOrder, Elems;
      ghost var st := St();
      Family(st, COPY, y);
      HoldsBounds(st, ROOT, tree);
      HoldsBounds(st, COPY, y);
      i, y', n := NodeHarvest(links[COPY], COPY, y);
      if y.Fork? {
        StandingKept(st, St(), COPY, Ids(y), ROOT, tree);
        SizeIs(y);
        SizeIs(y');
      }
    }

    /** range_add. */
    method Add(b0: int, t0: int) returns (r: int)
      requires Valid() && 0 < b0 <= t0 < UINT_MAX
      modifies this
      ensures Valid() && forall x :: Bans(x) <==> old(Bans(x)) || b0 <= x <= t0
      ensures r == count - old(count)
    {
      hide Holds, Sorted, Distinct, InOrder, Elems, Ids, Separated, Covers, Parted, Size, Outside, Spans, Overlaps;
      ghost var u := InOrder(tree);
      var root;
      ghost var y;
      root, y := RangeHarvest(b0 - 1, t0 + 1);
      TakeOver(root, y);
      ghost var w, v := InOrder(tree), InOrder(y);
      PartedCount(u, w, v, b0 - 1, t0 + 1, tree, y);
      var b, t, cnt := b0, t0, 0;
      SpanStarts(v, b0, t0);
      var i;
      ghost var y', n;
      i, y', n := Next(y);
      while i != NULL
        invariant Standing(St(), ROOT, tree) && Standing(St(), COPY, y') && Ids(tree) !! Ids(y') && InOrder(tree) == w
        invariant y.Fork? <==> i != NULL
        invariant i != NULL ==> Known(St(), n) && i == n.id && Without(y, y', n)
        invariant i == NULL ==> y' == y
        invariant Spans(v, InOrder(y), b0, t0, b, t)
        invariant count == |w| + |InOrder(y)| && cnt == |InOrder(y)| - |v|
        decreases Size(y)
      {
        SpanGrows(v, InOrder(y), InOrder(y'), n, b0, t0, b, t);
        if bot[i] < b {
          b := bot[i];
        }
        if top[i] > t {
          t := top[i];
        }
        count := count - 1;
        cnt := cnt - 1;
        y := y';
        i, y', n := Next(y);
      }
      LeafOrder();
      SpanFits(u, w, v, b0, t0, b, t, tree);
      Insert(b, t, y');
      AddCovers(u, w, v, InOrder(tree), b0, t0, b, t);
      r := cnt + 1;
    }

    /** node_app for one node, wherever it overlaps: it takes the place for its
        start, and what was there is lost. */
    method AppendAnyhow(i: nat, ghost n: Node) returns (ghost x: seq<Node>, ghost lost: seq<Node>, ghost z: seq<Node>)
      requires Standing(St(), ROOT, tree) && Loose(St(), Single(n)) && i == n.id && n.id !in Ids(tree)
      modifies this`links, this`hnd, this`tree
      ensures Shaped(St()) && Holds(St(), ROOT, tree) && Distinct(tree)
      ensures old(InOrder(tree)) == x + lost + z && InOrder(tree) == x + [n] + z && Under(x, n.bot) && Over(z, n.bot)
      ensures lost != [] ==> Covers(lost, n.bot)
    {
      hide Holds, ShapeKept, LowPair, HighPair, Replace, Before, After, Distinct, Sorted, InOrder, Under, Over, LinkOf,
        Sub, Covers, IsPath;
      ghost var st := St();
      var h;
      ghost var t1, p;
      h, t1, p := RangeHnd(ROOT, bot[i], tree);
      SingleIds(n);
      LooseKept(st, St(), ROOT, Ids(tree), Single(n));
      SameOrderSameIds(tree, t1);
      AnyhowHolds(St(), t1, p, n);
      NodeGlue(h, i);
      x, lost, z := Before(t1, p), InOrder(Sub(t1, p)), After(t1, p);
      LostHas(t1, p, n.bot);
      tree := Replace(t1, p, Single(n));
    }

    /** range_add where one end of the range is an end of the address space: the
        step outside the range wraps around, so that no range is found to be in
        the way. Unless some range starts where the new one does, the result
        is as it should be exactly if none is. */
    method AddAtEnd(b0: int, t0: int) returns (r: int)
      requires Valid() && 0 <= b0 <= t0 <= 0xFFFF_FFFF && (b0 == 0 || t0 == 0xFFFF_FFFF)
      modifies this
      ensures Shaped(St()) && Holds(St(), ROOT, tree) && Distinct(tree)
      ensures !StartsAt(old(InOrder(tree)), b0) ==>
        (Merged(old(InOrder(tree)), InOrder(tree), b0, t0) <==> Clear(old(InOrder(tree)), b0, t0))
      ensures b0 == 0 ==> !StartsAt(old(InOrder(tree)), b0)
      ensures r == count - old(count) == 1
    {
      hide Holds, Sorted, Distinct, InOrder, Elems, Ids, Separated, Covers, Parted, Size, Outside, Overlaps, Under,
        Over, Merged, Clear, Loose, StartsAt;
      ghost var u := InOrder(tree);
      var root;
      ghost var y;
      root, y := RangeHarvest(if b0 == 0 then UINT_MAX else b0 - 1, if t0 == UINT_MAX then 0 else t0 + 1);
      NothingFound(u, tree, y, if b0 == 0 then UINT_MAX else b0 - 1, if t0 == UINT_MAX then 0 else t0 + 1);
      TakeOver(root, y);
      var i;
      ghost var y', n0;
      i, y', n0 := Next(y);
      ghost var n := Node(|hnd|, b0, t0);
      GrownStands(St(), b0, t0, ROOT, tree);
      GrownSingle(St(), b0, t0, tree);
      i := NodeNew(b0, t0);
      ghost var x, lost, z := AppendAnyhow(i, n);
      if !StartsAt(u, b0) {
        EndMerges(u, x, lost, z, n);
      }
      NoneAtZero(u);
      r := 1;
    }

    /** range_remove: what sticks out of [b0, t0] is stored again. */
    method Remove(b0: int, t0: int) returns (r: int)
      requires Valid() && b0 <= t0
      modifies this
      ensures Valid() && forall x :: Bans(x) <==> old(Bans(x)) && !(b0 <= x <= t0)
      ensures r <= 0 && (r == 0 <==> forall x :: b0 <= x <= t0 ==> !old(Bans(x)))
      ensures var s := old(InOrder(tree)); r == -|set i: nat | i < |s| && s[i].bot <= t0 && b0 <= s[i].top|
    {
      hide Holds, Sorted, Distinct, InOrder, Elems, Ids, Separated, Covers, Parted, Size, Outside, Overlaps, Trimmed;
      ghost var u := InOrder(tree);
      var root;
      ghost var y;
      root, y := RangeHarvest(b0, t0);
      ghost var w, v := InOrder(tree), InOrder(y);
      PartedCount(u, w, v, b0, t0, tree, y);
      PartedHits(u, w, v, b0, t0);
      RootNull(St(), y);
      if root == NULL {
        NoneTaken(u, w, v, b0, t0);
        return 0;
      }
      TakeOver(root, y);
      TrimStarts(u, w, v, b0, t0);
      var ins, del := 0, 0;
      var i;
      ghost var y', n;
      i, y', n := Next(y);
      while i != NULL
        invariant Standing(St(), ROOT, tree) && Standing(St(), COPY, y') && Ids(tree) !! Ids(y')
        invariant y.Fork? <==> i != NULL
        invariant i != NULL ==> Known(St(), n) && i == n.id && Without(y, y', n)
        invariant i == NULL ==> y' == y
        invariant Trimmed(u, w, v, InOrder(y), InOrder(tree), b0, t0)
        invariant count == |InOrder(tree)| + |InOrder(y)| && del == |v| - |InOrder(y)|
        decreases Size(y)
      {
        ghost var s0 := InOrder(tree);
        if top[i] > t0 {
          UpperRoom(u, w, v, InOrder(y), InOrder(y'), n, s0, b0, t0);
          Insert(t0 + 1, top[i], y');
          ins := ins + 1;
        }
        ghost var s1 := InOrder(tree);
        if bot[i] < b0 {
          LowerRoom(u, w, v, InOrder(y), InOrder(y'), n, s0, s1, b0, t0);
          Insert(bot[i], b0 - 1, y');
          ins := ins + 1;
        }
        TrimGrows(u, w, v, InOrder(y), InOrder(y'), n, s0, s1, InOrder(tree), b0, t0);
        count := count - 1;
        del := del + 1;
        y := y';
        i, y', n := Next(y);
      }
      LeafOrder();
      TrimDone(u, w, v, InOrder(tree), b0, t0);
      ghost var x :| b0 <= x <= t0 && Covers(u, x);
      assert old(Bans(x));
      r := if del != 0 then -del else ins;
    }

    // Looking ---------------------------------------------------------------------------------

    /** range_iter: the first range if b > t, otherwise the first one that starts above b. */
    method Iter(b: int, t: int) returns (ok: bool, b': int, t': int)
      requires Valid()
      ensures var s := InOrder(tree); var k := if b > t then 0 else FirstAbove(s, b, 0);
              if k < |s| then ok && b' == s[k].bot && t' == s[k].top else !ok && b' == b && t' == t
    {
      hide Holds, Sorted, Distinct, InOrder, Separated, Before, After, Sub, LinkOf, FirstAbove;
      var best, np := NULL, links[ROOT];
      ghost var p := [];
      AtTop(tree);
      LookAt(St(), tree, p);
      if b > t {
        while np != NULL
          invariant IsPath(tree, p) && np == RootId(Sub(tree, p)) && (np != NULL <==> Sub(tree, p).Fork?)
          invariant Before(tree, p) == [] && BestOf(St(), best, After(tree, p))
          decreases Size(Sub(tree, p))
        {
          LookAt(St(), tree, p);
          LookDown(St(), tree, p, false);
          best := np;
          np := links[LinkTo(np, false)];
          p := p + [false];
          LookAt(St(), tree, p);
        }
        LookDone(tree, p, b, true);
      } else {
        var found := NULL;
        while np != NULL
          invariant IsPath(tree, p) && np == RootId(Sub(tree, p)) && (np != NULL <==> Sub(tree, p).Fork?)
          invariant NoneAbove(Before(tree, p), b) && Over(After(tree, p), b) && BestOf(St(), best, After(tree, p))
          invariant found != NULL ==> Over(InOrder(Sub(tree, p)), b)
          decreases Size(Sub(tree, p))
        {
          LookAt(St(), tree, p);
          ghost var c := Sub(tree, p);
          LookSides(c, b);
          LookJoins(Before(tree, p), c, After(tree, p), b);
          if b < bot[np] {
            LookDown(St(), tree, p, false);
            best := np;
            np := links[LinkTo(np, false)];
            p := p + [false];
          } else if b > top[np] {
            LookDown(St(), tree, p, true);
            np := links[LinkTo(np, true)];
            p := p + [true];
          } else {
            if found != NULL {
              assert false;
              break;
            }
            LookDown(St(), tree, p, true);
            found := np;
            np := links[LinkTo(np, true)];
            p := p + [true];
          }
          LookAt(St(), tree, p);
        }
        LookDone(tree, p, b, false);
      }
      if best == NULL {
        return false, b, t;
      }
      return true, bot[best], top[best];
    }

    /** range_check: whether an address is banned, or how many ranges overlap [b, t]. */
    method Check(b: int, t: int) returns (r: int)
      requires Valid() && 0 <= b && 0 <= t
      modifies this`links, this`hnd, this`tree
      ensures Valid() && InOrder(tree) == old(InOrder(tree))
      ensures b == t ==> r == if Bans(b) then 1 else 0
      ensures b != t ==> var s := InOrder(tree); r == |set i: nat | i < |s| && s[i].bot <= t && b <= s[i].top|
    {
      hide Holds, Sorted, Distinct, InOrder, Separated, Before, After, Sub, LinkOf, FirstAbove, Hits, Covers;
      if b == t {
        var h;
        ghost var t', p;
        h, t', p := RangeHnd(ROOT, b, tree);
        FoundIs(St(), t', p, h, b);
        tree := t';
        return if links[h] != NULL then 1 else 0;
      }
      HitsAre(InOrder(tree), b, t, |InOrder(tree)|);
      r := CountHits(b, t);
    }

    method CountHits(b: int, t: int) returns (cnt: int)
      requires Valid() && 0 <= b
      ensures cnt == Hits(InOrder(tree), b, t, |InOrder(tree)|)
    {
      hide Holds, Distinct, InOrder, Separated, FirstAbove;
      ghost var s, k := InOrder(tree), 0;
      var tbot, ttop := b, 0;
      cnt := 0;
      if b == 0 {
        FromZero(s);
      }
      var ok;
      ok, tbot, ttop := Iter(tbot, ttop);
      while ok
        invariant k <= |s| && (ok <==> k < |s|) && (ok ==> tbot == s[k].bot && ttop == s[k].top)
        invariant cnt == Hits(s, b, t, k)
        decreases |s| - k
      {
        if ttop < b {
          NextAbove(s, k);
        } else if tbot > t {
          HitsEnd(s, b, t, k);
          break;
        } else {
          cnt := cnt + 1;
          NextAbove(s, k);
        }
        k := k + 1;
        ok, tbot, ttop := Iter(tbot, ttop);
      }
    }

    /** range_dump0: the ranges below node i, each before those that hang from it. */
    method Dump(i: nat, ghost p: Path) returns (out: seq<(int, int)>)
      requires Valid() && IsPath(tree, p) && i == RootId(Sub(tree, p))
      ensures multiset(out) == multiset(Pairs(InOrder(Sub(tree, p))))
      decreases Size(Sub(tree, p))
    {
      hide Holds, Sorted, Distinct, InOrder, Separated, Before, After, Sub, IsPath;
      LookAt(St(), tree, p);
      DumpSplits(Sub(tree, p));
      if i == NULL {
        return [];
      }
      out := [(bot[i], top[i])];
      LookDown(St(), tree, p, false);
      LookDown(St(), tree, p, true);
      if links[LinkTo(i, false)] != NULL {
        var a := Dump(links[LinkTo(i, false)], p + [false]);
        out := out + a;
      }
      if links[LinkTo(i, true)] != NULL {
        var a := Dump(links[LinkTo(i, true)], p + [true]);
        out := out + a;
      }
    }

    /** Ranges that are read are added to an empty list. */
    static method Load(ranges: seq<(int, int)>) returns (l: BanList)
      requires forall i :: 0 <= i < |ranges| ==> 0 < ranges[i].0 <= ranges[i].1 < UINT_MAX
      ensures fresh(l) && l.Valid() && forall x :: l.Bans(x) <==> Listed(ranges, x)
    {
      hide Standing, Separated, Covers;
      l := new BanList();
      EmptyCovers();
      for i := 0 to |ranges|
        invariant l.Valid() && fresh(l) && forall x {:trigger l.Bans(x)} :: l.Bans(x) <==> Listed(ranges[..i], x)
      {
        var _ := l.Add(ranges[i].0, ranges[i].1);
        assert ranges[..i + 1] == ranges[..i] + [ranges[i]];
        forall x
          ensures l.Bans(x) <==> Listed(ranges[..i + 1], x)
        {
          ListedMore(ranges[..i], ranges[i], x);
        }
      }
      assert ranges[..|ranges|] == ranges;
    }

    /** The ranges that were dumped are read into an empty list. */
    method Reload() returns (l: BanList)
      requires Valid()
      ensures fresh(l) && l.Valid() && SameRanges(InOrder(l.tree), InOrder(tree))
      ensures forall x :: l.Bans(x) <==> Bans(x)
    {
      hide Holds, Distinct, InOrder, Sub, Covers, Separated, Sorted;
      AtTop(tree);
      LookAt(St(), tree, []);
      var out := Dump(links[ROOT], []);
      ghost var s := InOrder(tree);
      DumpBounds(s, out);
      l := Load(out);
      forall x
        ensures Covers(InOrder(l.tree), x) <==> Covers(s, x)
      {
        assert l.Bans(x) <==> Listed(out, x);
        DumpCovers(s, out, x);
      }
      SameCoverSameRanges(InOrder(l.tree), s);
    }

    /** What the server does when it stops and starts: after reading the ranges one
        address is taken out of the list again, so the list is the same exactly if
        that was not banned. */
    method Restart() returns (l: BanList)
      requires Valid()
      ensures fresh(l) && l.Valid() && forall x :: l.Bans(x) <==> Bans(x) && x != 0xF700_0001
      ensures SameRanges(InOrder(l.tree), InOrder(tree)) <==> !Bans(0xF700_0001)
    {
      hide Holds, Distinct, InOrder, Sub, Covers, Separated, Sorted;
      l := Reload();
      var _ := l.Remove(SPARED, SPARED);
      ghost var b, s := InOrder(l.tree), InOrder(tree);
      if SameRanges(b, s) {
        SameRangesCover(b, s, SPARED);
        assert !l.Bans(SPARED);
      } else if !Bans(SPARED) {
        forall x
          ensures Covers(b, x) <==> Covers(s, x)
        {
          assert l.Bans(x) <==> Bans(x);
        }
        SameCoverSameRanges(b, s);
      }
    }
  }

  // Ranges at the ends of the address space ----------------------------------------------------------

  /** s are the ranges of u and [b, t], as they should be stored. */
  ghost predicate Merged(u: seq<Node>, s: seq<Node>, b: int, t: int) {
    Sorted(s) && Separated(s) && forall x {:trigger Covers(s, x)} :: Covers(s, x) <==> Covers(u, x) || b <= x <= t
  }

  /** The range m overlaps [b, t] or is next to it. */
  predicate InTheWay(m: Node, b: int, t: int) {
    m.bot <= t + 1 && b <= m.top + 1
  }

  ghost predicate Clear(u: seq<Node>, b: int, t: int) {
    forall i {:trigger u[i]} :: 0 <= i < |u| ==> !InTheWay(u[i], b, t)
  }

  ghost predicate StartsAt(u: seq<Node>, b: int) {
    exists i {:trigger u[i]} :: 0 <= i < |u| && u[i].bot == b
  }

  lemma NoneAtZero(u: seq<Node>)
    requires Addresses(u) && Sorted(u)
    ensures !StartsAt(u, 0)
  {
    forall i | 0 <= i < |u|
      ensures u[i].bot != 0
    {
      assert u[i].bot <= u[i].bot <= u[i].top;
      assert Covers(u, u[i].bot);
    }
  }

  /** A search that starts above all addresses, or ends below them, finds nothing. */
  lemma NothingFound(u: seq<Node>, a: Tree, y: Tree, b: int, t: int)
    requires Sorted(u) && Addresses(u) && Parted(u, InOrder(a), InOrder(y), b, t)
    requires Sorted(InOrder(a)) && (b == UINT_MAX || t == 0)
    ensures InOrder(a) == u && y.Leaf?
  {
    if y.Fork? {
      var n := y.node;
      RootIn(y);
      assert n in Elems(InOrder(y));
      assert n in Elems(u);
      var i :| 0 <= i < |u| && u[i] == n;
      assert n.bot <= n.bot <= n.top && n.bot <= n.top <= n.top;
      assert Covers(u, n.bot) && Covers(u, n.top);
    }
    LeafOrder();
    assert Elems(InOrder(Leaf)) == {};
    SortedUnique(InOrder(a), u);
  }

  lemma GrownSingle(st: Store, b: int, t: int, a: Tree)
    requires Standing(st, ROOT, a) && b <= t
    ensures var n := Node(|st.hnd|, b, t);
            Shaped(Grown(st, b, t)) && Loose(Grown(st, b, t), Single(n)) && n.id !in Ids(a)
  {
    hide Sorted, InOrder;
    var n, st' := Node(|st.hnd|, b, t), Grown(st, b, t);
    HoldsBounds(st, ROOT, a);
    SingleIds(n);
    SingleOrder(n);
    SingleSorted(n);
    assert st'.links[LinkTo(n.id, false)] == NULL == st'.links[LinkTo(n.id, true)];
    assert Holds(st', LinkTo(n.id, false), Leaf) && Holds(st', LinkTo(n.id, true), Leaf);
    assert Distinct(Leaf) && Distinct(Single(n));
    assert st'.bot[n.id] == n.bot && st'.top[n.id] == n.top && n.id < |st'.hnd|;
  }

  /** A node glued to a link takes the place of what was there. */
  lemma AnyhowHolds(st: Store, t: Tree, p: Path, n: Node)
    requires Standing(st, ROOT, t) && Loose(st, Single(n)) && n.id !in Ids(t) && IsPath(t, p)
    ensures 0 <= LinkOf(ROOT, t, p) < |st.links| && n.id < |st.hnd|
    ensures var st' := Glue(st, LinkOf(ROOT, t, p), n.id); var t' := Replace(t, p, Single(n));
            && Shaped(st') && Holds(st', ROOT, t') && Distinct(t')
            && InOrder(t') == Before(t, p) + [n] + After(t, p)
            && InOrder(t) == Before(t, p) + InOrder(Sub(t, p)) + After(t, p)
  {
    hide Before, After, Sorted, Sub;
    HoldsSub(st, ROOT, t, p);
    LinkInside(ROOT, t, p);
    HoldsBounds(st, ROOT, t);
    var h := LinkOf(ROOT, t, p);
    SingleIds(n);
    SingleOrder(n);
    GlueHolds(st, h, Single(n));
    ReplaceOrder(t, p, Single(n));
    ReplaceIds(t, p, Single(n));
    HoldsReplace(st, Glue(st, h, n.id), ROOT, t, p, Single(n), {n.id});
  }

  /** What is lost holds the value that was looked for. */
  lemma LostHas(t: Tree, p: Path, val: int)
    requires PlaceFor(t, p, val)
    ensures InOrder(Sub(t, p)) != [] ==> Covers(InOrder(Sub(t, p)), val)
  {
    var c := Sub(t, p);
    if c.Fork? {
      RootIn(c);
    }
  }

  /** When the new range was put between x and z, and what lay there was lost. */
  lemma EndMerges(u: seq<Node>, x: seq<Node>, lost: seq<Node>, z: seq<Node>, n: Node)
    requires Sorted(u) && Separated(u) && u == x + lost + z && n.bot <= n.top && !StartsAt(u, n.bot)
    requires Under(x, n.bot) && Over(z, n.bot) && (lost != [] ==> Covers(lost, n.bot))
    ensures Merged(u, x + [n] + z, n.bot, n.top) <==> Clear(u, n.bot, n.top)
  {
    hide Sorted, Separated, Merged, Clear, Covers, Under, Over, StartsAt;
    if lost != [] {
      LostIsMissed(u, x, lost, z, n);
    } else {
      assert x + lost + z == x + z;
      if Clear(u, n.bot, n.top) {
        ClearMerges(x, z, n);
      } else {
        WayIsMissed(x, z, n);
      }
    }
  }

  lemma LostIsMissed(u: seq<Node>, x: seq<Node>, lost: seq<Node>, z: seq<Node>, n: Node)
    requires Sorted(u) && u == x + lost + z && n.bot <= n.top && !StartsAt(u, n.bot)
    requires Under(x, n.bot) && Over(z, n.bot) && Covers(lost, n.bot)
    ensures !Merged(u, x + [n] + z, n.bot, n.top) && !Clear(u, n.bot, n.top)
  {
    var k :| 0 <= k < |lost| && lost[k].bot <= n.bot <= lost[k].top;
    var i, a := |x| + k, lost[k].bot;
    assert u[i] == lost[k] && a < n.bot && InTheWay(u[i], n.bot, n.top);
    assert Covers(u, a);
    var s := x + [n] + z;
    forall j | 0 <= j < |s|
      ensures !(s[j].bot <= a <= s[j].top)
    {
      if j < |x| {
        assert s[j] == x[j] == u[j];
      } else if j > |x| {
        assert s[j] == z[j - |x| - 1];
      }
    }
    assert !Covers(s, a);
  }

  lemma ClearMerges(x: seq<Node>, z: seq<Node>, n: Node)
    requires Sorted(x + z) && Separated(x + z) && n.bot <= n.top
    requires Under(x, n.bot) && Over(z, n.bot) && Clear(x + z, n.bot, n.top)
    ensures Merged(x + z, x + [n] + z, n.bot, n.top)
  {
    var u, s := x + z, x + [n] + z;
    forall i | 0 <= i < |x|
      ensures x[i].top + 1 < n.bot
    {
      assert u[i] == x[i];
    }
    forall i | 0 <= i < |z|
      ensures n.top + 1 < z[i].bot
    {
      assert u[|x| + i] == z[i];
    }
    SplicedSorted(x, z, n);
    forall a
      ensures Covers(s, a) <==> Covers(u, a) || n.bot <= a <= n.top
    {
      CoversJoin(x + [n], z, a);
      CoversJoin(x, [n], a);
      CoversJoin(x, z, a);
      CoversOne(n, a);
    }
  }

  lemma SplicedSorted(x: seq<Node>, z: seq<Node>, n: Node)
    requires Sorted(x + z) && Separated(x + z) && n.bot <= n.top
    requires (forall i :: 0 <= i < |x| ==> x[i].top + 1 < n.bot) && (forall i :: 0 <= i < |z| ==> n.top + 1 < z[i].bot)
    ensures Sorted(x + [n] + z) && Separated(x + [n] + z)
  {
    var u, s := x + z, x + [n] + z;
    forall i | 0 <= i < |s|
      ensures s[i].bot <= s[i].top
    {
      SplicedAt(x, z, n, i);
    }
    forall i, j | 0 <= i < j < |s|
      ensures s[i].top + 1 < s[j].bot
    {
      SplicedAt(x, z, n, i);
      SplicedAt(x, z, n, j);
    }
  }

  lemma SplicedAt(x: seq<Node>, z: seq<Node>, n: Node, i: nat)
    requires i <= |x| + |z|
    ensures var s := x + [n] + z;
            if i < |x| then s[i] == x[i] == (x + z)[i] else if i == |x| then s[i] == n
            else s[i] == z[i - |x| - 1] == (x + z)[i - 1]
  {
  }

  lemma WayIsMissed(x: seq<Node>, z: seq<Node>, n: Node)
    requires n.bot <= n.top && Under(x, n.bot) && Over(z, n.bot) && !Clear(x + z, n.bot, n.top)
    ensures !Merged(x + z, x + [n] + z, n.bot, n.top)
  {
    var u, s := x + z, x + [n] + z;
    var i :| 0 <= i < |u| && InTheWay(u[i], n.bot, n.top);
    SplicedAt(x, z, n, |x|);
    if i < |x| {
      SplicedAt(x, z, n, i);
    } else {
      SplicedAt(x, z, n, i + 1);
    }
    assert !Separated(s);
  }

  /** s was appended to t at the place p of t1. */
  ghost predicate AppendedAt(t: Tree, s: Tree, t1: Tree, p: Path)
    requires s.Fork?
  {
    && InOrder(t1) == InOrder(t) && ShapeKept(t, t1, s.node.bot)
    && PlaceFor(t1, p, s.node.bot) && Sub(t1, p).Leaf?
    && InOrder(t) == Before(t1, p) + After(t1, p)
    && InOrder(Replace(t1, p, s)) == Before(t1, p) + InOrder(s) + After(t1, p)
    && Ids(Replace(t1, p, s)) == Ids(t) + Ids(s)
  }

  lemma LooseKept(st: Store, st': Store, at: int, ids: set<nat>, s: Tree)
    requires Shaped(st) && Loose(st, s) && Changed(st, st', at, ids) && ids !! Ids(s) && at / 2 !in Ids(s)
    ensures Loose(st', s)
  {
    HoldsKept(st, st', at, ids, LinkTo(s.node.id, false), s.prv);
    HoldsKept(st, st', at, ids, LinkTo(s.node.id, true), s.nxt);
  }

  /** The root of a sorted tree, with one side, fits with the other side. */
  lemma LiftFits(c: Tree, d: bool)
    requires c.Fork? && Sorted(InOrder(c))
    ensures Fits(InOrder(Kid(c, d)), InOrder(WithKid(c, d, Leaf)))
  {
    LiftOrder(c, d);
    if d {
      HalvesFit(InOrder(WithKid(c, d, Leaf)), InOrder(Kid(c, d)));
    } else {
      HalvesFit(InOrder(Kid(c, d)), InOrder(WithKid(c, d, Leaf)));
    }
  }

  lemma HalvesFit(a: seq<Node>, b: seq<Node>)
    requires Sorted(a + b)
    ensures Fits(a, b) && Fits(b, a)
  {
    var u := a + b;
    assert forall i :: 0 <= i < |a| ==> u[i] == a[i];
    assert forall i :: 0 <= i < |b| ==> u[|a| + i] == b[i];
    assert forall i, j {:trigger a[i], b[j]} :: 0 <= i < |a| && 0 <= j < |b| ==> u[i].top < u[|a| + j].bot;
  }

  /** Appending the root again leaves the order as it was. */
  lemma RotateOrder(c: Tree, d: bool, t1: Tree, p: Path)
    requires c.Fork? && Sorted(InOrder(c)) && AppendedAt(Kid(c, d), WithKid(c, d, Leaf), t1, p)
    ensures InOrder(Replace(t1, p, WithKid(c, d, Leaf))) == InOrder(c)
  {
    hide InOrder, Before, After, Sub, Replace, ShapeKept;
    SortedSides(c);
    LiftOrder(c, d);
    LiftSorted(c, d);
    NothingBeyond(t1, p, c.node.bot, d);
    DropEmpty(InOrder(WithKid(c, d, Leaf)));
    DropEmpty(After(t1, p));
    DropEmpty(Before(t1, p));
    DropEmpty(Before(t1, p) + InOrder(WithKid(c, d, Leaf)));
  }

  // Taking nodes out ---------------------------------------------------------------------------

  function Single(n: Node): Tree {
    Fork(Leaf, n, Leaf)
  }

  /** t' is t without the node n, which is loose now. */
  ghost predicate Plucked(st: Store, at: int, t: Tree, t': Tree, n: Node) {
    && Standing(st, at, t') && Loose(st, Single(n))
    && n.id in Ids(t) && n.id !in Ids(t') && Ids(t') + {n.id} == Ids(t)
    && Elems(InOrder(t')) + {n} == Elems(InOrder(t)) && n !in Elems(InOrder(t')) && Size(t') + 1 == Size(t)
  }

  ghost function Elems(s: seq<Node>): set<Node> {
    set n | n in s
  }

  function OnlyKid(c: Tree): Tree
    requires c.Fork?
  {
    if c.prv.Fork? then c.prv else c.nxt
  }

  lemma SubStands(st: Store, at: int, t: Tree, p: Path)
    requires Standing(st, at, t) && IsPath(t, p)
    ensures Standing(st, LinkOf(at, t, p), Sub(t, p)) && Ids(Sub(t, p)) <= Ids(t)
    ensures p == [] ==> LinkOf(at, t, p) == at && Sub(t, p) == t
    ensures p != [] ==> LinkOf(at, t, p) / 2 in Ids(t) - Ids(Sub(t, p))
  {
    hide Before, After, Replace, Sorted;
    HoldsBounds(st, at, t);
    HoldsSub(st, at, t, p);
    SubIds(t, p);
    LinkInside(at, t, p);
    ReplaceOrder(t, p, Leaf);
    SortedMiddle(Before(t, p), InOrder(Sub(t, p)), After(t, p));
  }

  /** Memory after node i was cut and its only child, if any, glued in its place. */
  function Pluck(st: Store, i: nat): (r: Store)
    requires Shaped(st) && i < |st.hnd| && 0 <= st.hnd[i] < |st.links|
    requires 0 <= st.links[LinkTo(i, false)] < |st.hnd| && 0 <= st.links[LinkTo(i, true)] < |st.hnd|
  {
    var h, st1 := st.hnd[i], Cut(st, i);
    var a, b := st1.links[LinkTo(i, false)], st1.links[LinkTo(i, true)];
    if 0 < a < |st.hnd| then
      var st2 := Glue(st1, h, a);
      st2.(links := st2.links[LinkTo(i, false) := NULL])
    else if 0 < b < |st.hnd| then
      var st2 := Glue(st1, h, b);
      st2.(links := st2.links[LinkTo(i, true) := NULL])
    else st1
  }

  lemma PluckStore(st: Store, at: int, c: Tree)
    requires Standing(st, at, c) && c.Fork? && !TwoKids(c)
    ensures var i := c.node.id;
            && i < |st.hnd| && 0 <= st.hnd[i] < |st.links|
            && 0 <= st.links[LinkTo(i, false)] < |st.hnd| && 0 <= st.links[LinkTo(i, true)] < |st.hnd|
    ensures var st' := Pluck(st, c.node.id);
            && Standing(st', at, OnlyKid(c)) && Loose(st', Single(c.node)) && Changed(st, st', at, Ids(c))
            && Ids(c) == Ids(OnlyKid(c)) + {c.node.id} && c.node.id !in Ids(OnlyKid(c))
  {
    hide InOrder, Sorted, Changed, Holds, Outside, Distinct;
    Family(st, at, c);
    var i, d := c.node.id, c.prv.Leaf?;
    if OnlyKid(c).Fork? {
      LiftChild(st, at, c, d);
      LiftedLinks(st, at, c, d);
      assert WithKid(c, d, Leaf) == Single(c.node);
      assert Pluck(st, i) == Lifted(st, at, i, Kid(c, d).node.id);
    } else {
      LoneLoose(st, at, c);
    }
  }

  lemma LoneLoose(st: Store, at: int, c: Tree)
    requires Standing(st, at, c) && Lone(c) && c.node.id < |st.hnd| && 0 <= st.hnd[c.node.id] < |st.links|
    ensures var st' := Cut(st, c.node.id);
            Standing(st', at, Leaf) && Loose(st', Single(c.node)) && Changed(st, st', at, Ids(c))
  {
    Family(st, at, c);
    SortedParts(InOrder(c.prv), c.node, InOrder(c.nxt));
    assert InOrder(Single(c.node)) == [c.node] && InOrder(Leaf) == [];
    assert Holds(st, LinkTo(c.node.id, false), Leaf) && Holds(st, LinkTo(c.node.id, true), Leaf);
    assert LinkTo(c.node.id, false) / 2 == c.node.id == LinkTo(c.node.id, true) / 2;
  }

  lemma PluckWhole(st: Store, st': Store, at: int, t: Tree, p: Path)
    requires Standing(st, at, t) && IsPath(t, p) && Sub(t, p).Fork? && !TwoKids(Sub(t, p))
    requires var c, h := Sub(t, p), LinkOf(at, t, p);
      && Shaped(st') && Standing(st', h, OnlyKid(c)) && Loose(st', Single(c.node)) && Changed(st, st', h, Ids(c))
      && Ids(c) == Ids(OnlyKid(c)) + {c.node.id} && c.node.id !in Ids(OnlyKid(c))
    ensures Plucked(st', at, t, Replace(t, p, OnlyKid(Sub(t, p))), Sub(t, p).node) && Changed(st, st', at, Ids(t))
  {
    hide Holds, Before, After, InOrder, Distinct, Ids, Replace, LinkOf, Sub, IsPath, Sorted, Elems;
    var c := Sub(t, p);
    var k := OnlyKid(c);
    SubStands(st, at, t, p);
    ReplaceOrder(t, p, k);
    ReplaceIds(t, p, k);
    HoldsReplace(st, st', at, t, p, k, Ids(c));
    ChangedMore(st, st', LinkOf(at, t, p), Ids(c), at, Ids(t));
    OnlyKidOrder(c);
    PluckOrder(Before(t, p), InOrder(c.prv), c.node, InOrder(c.nxt), After(t, p));
    SizeIs(t);
    SizeIs(Replace(t, p, k));
  }

  lemma OnlyKidOrder(c: Tree)
    requires c.Fork? && !TwoKids(c)
    ensures InOrder(c) == InOrder(c.prv) + [c.node] + InOrder(c.nxt)
    ensures InOrder(OnlyKid(c)) == InOrder(c.prv) + InOrder(c.nxt)
  {
  }

  /** A sorted sequence without one element. */
  lemma PluckOrder(a: seq<Node>, x: seq<Node>, n: Node, y: seq<Node>, b: seq<Node>)
    requires Sorted(a + (x + [n] + y) + b)
    ensures Sorted(a + (x + y) + b) && |a + (x + y) + b| + 1 == |a + (x + [n] + y) + b|
    ensures Elems(a + (x + y) + b) + {n} == Elems(a + (x + [n] + y) + b) && n !in Elems(a + (x + y) + b)
  {
    var c, d := a + x, y + b;
    assert a + (x + [n] + y) + b == c + [n] + d;
    assert a + (x + y) + b == c + d;
    PluckOne(c, n, d);
  }

  lemma PluckOne(c: seq<Node>, n: Node, d: seq<Node>)
    requires Sorted(c + [n] + d)
    ensures Sorted(c + d) && Elems(c + d) + {n} == Elems(c + [n] + d) && n !in Elems(c + d)
  {
    SortedParts(c, n, d);
    ElemsJoin(c + [n], d);
    ElemsJoin(c, [n]);
    ElemsJoin(c, d);
    NotAmong(c, n, d);
    SortedWithout(c, n, d);
  }

  lemma ElemsJoin(a: seq<Node>, b: seq<Node>)
    ensures Elems(a + b) == Elems(a) + Elems(b)
  {
  }

  lemma NotAmong(c: seq<Node>, n: Node, d: seq<Node>)
    requires n.bot <= n.top && Under(c, n.bot) && Over(d, n.top)
    ensures n !in c && n !in d
  {
  }

  lemma SortedWithout(c: seq<Node>, n: Node, d: seq<Node>)
    requires Sorted(c + [n] + d)
    ensures Sorted(c + d)
  {
    SortedParts(c, n, d);
    var s := c + d;
    forall i, j | 0 <= i < j < |s|
      ensures s[i].top < s[j].bot
    {
      ConcatAt(c, d, i);
      ConcatAt(c, d, j);
    }
    forall i | 0 <= i < |s|
      ensures s[i].bot <= s[i].top
    {
      ConcatAt(c, d, i);
    }
  }

  lemma ConcatAt(c: seq<Node>, d: seq<Node>, i: int)
    requires 0 <= i < |c| + |d|
    ensures (c + d)[i] == if i < |c| then c[i] else d[i - |c|]
  {
  }

  // Taking a whole subtree apart -----------------------------------------------------------------

  lemma StandingKept(st: Store, st': Store, at: int, ids: set<nat>, from: int, t: Tree)
    requires Standing(st, from, t) && Shaped(st) && Changed(st, st', at, ids)
    requires Ids(t) !! ids && from != at && from / 2 !in ids && at / 2 !in Ids(t)
    ensures Standing(st', from, t)
  {
    HoldsKept(st, st', at, ids, from, t);
  }

  /** The nodes of u are spread over the trees a at link at and l and r under
      the loose node i. */
  ghost predicate Consuming(st: Store, at: int, i: nat, a: Tree, l: Tree, r: Tree, u: seq<Node>) {
    && Shaped(st) && FIRST_NODE <= i < |st.hnd|
    && Standing(st, at, a) && Standing(st, LinkTo(i, false), l) && Standing(st, LinkTo(i, true), r)
    && Ids(a) !! Ids(l) && Ids(a) !! Ids(r) && Ids(l) !! Ids(r)
    && i !in Ids(a) && at / 2 !in Ids(l) && at / 2 !in Ids(r) && at / 2 != i
    && Sorted(u) && Elems(InOrder(a)) + Elems(InOrder(l)) + Elems(InOrder(r)) == Elems(u)
  }

  lemma ConsumingRoot(st: Store, at: int, i: nat, a: Tree, l: Tree, r: Tree, u: seq<Node>, d: bool)
    requires Consuming(st, at, i, a, l, r, u)
    ensures 0 <= LinkTo(i, d) < |st.links| && st.links[LinkTo(i, d)] == RootId(if d then r else l)
    ensures Standing(st, LinkTo(i, d), if d then r else l)
    ensures RootId(if d then r else l) == NULL <==> (if d then r else l).Leaf?
  {
    Family(st, LinkTo(i, false), l);
    Family(st, LinkTo(i, true), r);
  }

  /** The side x of node i, with y on the other side. */
  ghost predicate Sided(st: Store, at: int, i: nat, a: Tree, x: Tree, y: Tree, u: seq<Node>, d: bool) {
    Consuming(st, at, i, a, if d then y else x, if d then x else y, u)
  }

  lemma HarvestLeaves(st: Store, st1: Store, at: int, i: nat, a: Tree, x: Tree, y: Tree, u: seq<Node>, d: bool,
      x': Tree, n: Node)
    requires Sided(st, at, i, a, x, y, u, d) && Plucked(st1, LinkTo(i, d), x, x', n)
    requires Changed(st, st1, LinkTo(i, d), Ids(x))
    ensures Shaped(st1) && Standing(st1, at, a) && Standing(st1, LinkTo(i, !d), y)
    ensures Loose(st1, Single(n)) && Ids(Single(n)) == {n.id} && {n.id} !! Ids(a)
    ensures at / 2 != n.id && Fits(InOrder(a), InOrder(Single(n)))
  {
    hide Holds, Distinct, Sorted, InOrder, Fits, Standing, Elems, Changed, Outside, Sided, Consuming, Loose, Ids;
    SidedParts(st, at, i, a, x, y, u, d);
    SingleIds(n);
    StandingKept(st, st1, LinkTo(i, d), Ids(x), at, a);
    StandingKept(st, st1, LinkTo(i, d), Ids(x), LinkTo(i, !d), y);
    SingleFits(a, x, n, u);
  }

  lemma SingleFits(a: Tree, x: Tree, n: Node, u: seq<Node>)
    requires Sorted(u) && Elems(InOrder(a)) <= Elems(u)
    requires Elems(InOrder(x)) <= Elems(u) && n in Elems(InOrder(x)) && Ids(a) !! Ids(x)
    ensures Fits(InOrder(a), InOrder(Single(n)))
  {
    assert InOrder(Leaf) == [];
    assert InOrder(Single(n)) == [n];
    var s := InOrder(a);
    IdsHave(x, n);
    forall k | 0 <= k < |s|
      ensures Below(s[k], [n]) || Above(s[k], [n])
    {
      assert s[k] in Elems(u) && n in Elems(u);
      IdsHave(a, s[k]);
      var i, j :| 0 <= i < |u| && 0 <= j < |u| && u[i] == s[k] && u[j] == n;
    }
  }

  lemma IdsHave(t: Tree, n: Node)
    requires n in InOrder(t)
    ensures n.id in Ids(t)
  {
    var k :| 0 <= k < |InOrder(t)| && InOrder(t)[k] == n;
    IdsAre(t, n.id);
    assert HasId(InOrder(t), n.id);
  }

  lemma MovedOne(st: Store, st1: Store, st2: Store, at: int, i: nat, a: Tree, x: Tree, y: Tree, u: seq<Node>, d: bool,
                 x': Tree, n: Node, t1: Tree, p: Path)
    requires Sided(st, at, i, a, x, y, u, d) && Plucked(st1, LinkTo(i, d), x, x', n)
    requires Changed(st, st1, LinkTo(i, d), Ids(x))
    requires Shaped(st1) && AppendedAt(a, Single(n), t1, p) && Standing(st2, at, Replace(t1, p, Single(n)))
    requires Standing(st1, LinkTo(i, !d), y) && Ids(Single(n)) == {n.id}
    requires Changed(st1, st2, at, Ids(a) + {n.id})
    ensures Sided(st2, at, i, Replace(t1, p, Single(n)), x', y, u, d)
    ensures Size(x') < Size(x)
    ensures Changed(st, st2, at, Ids(a) + Ids(x) + Ids(y) + {i})
  {
    hide Holds, Distinct, Sorted, InOrder, Before, After, Sub, Replace, ShapeKept, Fits, Ids, Elems, Changed, Standing,
      Outside, Loose, Under, Over, Sided;
    var a' := Replace(t1, p, Single(n));
    SidedParts(st, at, i, a, x, y, u, d);
    MovedIds(Ids(a), Ids(x), Ids(y), Ids(x'), n.id, Ids(a'));
    MovedElems(a, x, x', n, t1, p);
    MovedStands(st1, st2, at, i, a, n, d, x');
    MovedStands(st1, st2, at, i, a, n, !d, y);
    MovedChanges(st, st1, st2, at, i, d, Ids(a), Ids(x), Ids(y), n);
    SidedOf(st2, at, i, a', x', y, u, d);
  }

  lemma SidedParts(st: Store, at: int, i: nat, a: Tree, x: Tree, y: Tree, u: seq<Node>, d: bool)
    requires Sided(st, at, i, a, x, y, u, d)
    ensures SidedFacts(st, at, i, a, x, y, u, d)
  {
  }

  lemma SidedOf(st: Store, at: int, i: nat, a: Tree, x: Tree, y: Tree, u: seq<Node>, d: bool)
    requires SidedFacts(st, at, i, a, x, y, u, d)
    ensures Sided(st, at, i, a, x, y, u, d)
  {
  }

  ghost predicate SidedFacts(st: Store, at: int, i: nat, a: Tree, x: Tree, y: Tree, u: seq<Node>, d: bool) {
    && Shaped(st) && FIRST_NODE <= i < |st.hnd|
    && Standing(st, at, a) && Standing(st, LinkTo(i, d), x) && Standing(st, LinkTo(i, !d), y)
    && Ids(a) !! Ids(x) && Ids(a) !! Ids(y) && Ids(x) !! Ids(y)
    && i !in Ids(a) && i !in Ids(x) && i !in Ids(y) && at / 2 !in Ids(x) && at / 2 !in Ids(y) && at / 2 != i
    && Sorted(u) && Elems(InOrder(a)) + Elems(InOrder(x)) + Elems(InOrder(y)) == Elems(u)
  }

  lemma MovedStands(st1: Store, st2: Store, at: int, i: nat, a: Tree, n: Node, d: bool, x: Tree)
    requires Standing(st1, LinkTo(i, d), x) && Changed(st1, st2, at, Ids(a) + {n.id})
    requires Ids(x) !! Ids(a) && n.id !in Ids(x) && i !in Ids(a) && i != n.id && at / 2 != i && at / 2 !in Ids(x)
    ensures Standing(st2, LinkTo(i, d), x)
  {
    StandingKept(st1, st2, at, Ids(a) + {n.id}, LinkTo(i, d), x);
  }

  lemma MovedIds(a: set<nat>, x: set<nat>, y: set<nat>, x': set<nat>, k: nat, a': set<nat>)
    requires a !! x && a !! y && x !! y && k in x && k !in x' && x' + {k} == x && a' == a + {k}
    ensures a' !! x' && a' !! y && x' !! y && x' !! a && k !in y && k !in a
  {
  }

  lemma MovedElems(a: Tree, x: Tree, x': Tree, n: Node, t1: Tree, p: Path)
    requires AppendedAt(a, Single(n), t1, p) && Elems(InOrder(x')) + {n} == Elems(InOrder(x))
    ensures Elems(InOrder(Replace(t1, p, Single(n)))) + Elems(InOrder(x')) == Elems(InOrder(a)) + Elems(InOrder(x))
  {
    hide Before, After, InOrder, Replace, Sub, Ids;
    SingleOrder(n);
    ElemsJoin(Before(t1, p) + [n], After(t1, p));
    ElemsJoin(Before(t1, p), [n]);
    ElemsJoin(Before(t1, p), After(t1, p));
  }

  lemma MovedChanges(st: Store, st1: Store, st2: Store, at: int, i: nat, d: bool, a: set<nat>, x: set<nat>,
      y: set<nat>, n: Node)
    requires Shaped(st) && Changed(st, st1, LinkTo(i, d), x) && Changed(st1, st2, at, a + {n.id}) && n.id in x
    ensures Changed(st, st2, at, a + x + y + {i})
  {
    var ids := a + x + y + {i};
    assert LinkTo(i, d) / 2 == i;
    ChangedMore(st, st1, LinkTo(i, d), x, at, ids);
    ChangedMore(st1, st2, at, a + {n.id}, at, ids);
    ChangedTrans(st, st1, st2, at, ids);
  }

  /** Which side is which does not matter in the end. */
  lemma SidesAgree(a: Tree, x: Tree, y: Tree, a': Tree, x': Tree, d: bool, i: nat, n: Node)
    requires Ids(a') == Ids(a) + {n.id} && Ids(x') + {n.id} == Ids(x) && Size(x') < Size(x)
    ensures var l, r, l', r' := if d then y else x, if d then x else y, if d then y else x', if d then x' else y;
            && Size(l') + Size(r') < Size(l) + Size(r)
            && Ids(a') + Ids(l') + Ids(r') == Ids(a) + Ids(l) + Ids(r)
            && Ids(a) + Ids(x) + Ids(y) + {i} == Ids(a) + Ids(l) + Ids(r) + {i}
  {
  }

  lemma SingleOrder(n: Node)
    ensures InOrder(Single(n)) == [n]
  {
    assert InOrder(Leaf) == [];
  }

  /** t' has what hung from the root of t, and the root is loose. */
  ghost predicate Deleted(st: Store, at: int, t: Tree, t': Tree)
    requires t.Fork?
  {
    && Standing(st, at, t') && Loose(st, Single(t.node))
    && InOrder(t') == InOrder(t.prv) + InOrder(t.nxt) && Ids(t') + {t.node.id} == Ids(t) && t.node.id !in Ids(t')
  }

  lemma Family2(st: Store, at: int, t: Tree)
    requires Standing(st, at, t) && t.Fork?
    ensures Shaped(st) && 0 < t.node.id < |st.hnd| && KidIs(st, t, false)
    ensures KidIs(st, t, true) && st.hnd[t.node.id] == at && 0 <= at < |st.links|
  {
    Family(st, at, t);
  }

  /** The two sides of node i, as its links tell. */
  ghost predicate Links(links: seq<int>, i: nat, l: Tree, r: Tree) {
    && 2 * i + 1 < |links|
    && (links[LinkTo(i, false)] == NULL <==> l.Leaf?) && (links[LinkTo(i, true)] == NULL <==> r.Leaf?)
  }

  lemma ForkIds(t: Tree)
    requires t.Fork? && Distinct(t)
    ensures Ids(Leaf) == {} && Ids(t) == Ids(t.prv) + Ids(t.nxt) + {t.node.id}
    ensures t.node.id !in Ids(t.prv) && t.node.id !in Ids(t.nxt)
  {
  }

  lemma CutConsumes(st: Store, at: int, t: Tree)
    requires Standing(st, at, t) && t.Fork? && t.node.id < |st.hnd| && 0 <= st.hnd[t.node.id] < |st.links|
    ensures var st' := Cut(st, t.node.id);
            && Consuming(st', at, t.node.id, Leaf, t.prv, t.nxt, InOrder(t.prv) + InOrder(t.nxt))
            && Changed(st, st', at, Ids(t)) && st'.bot[t.node.id] == t.node.bot && st'.top[t.node.id] == t.node.top
    ensures t.node.bot <= t.node.top && Distinct(t) && st.hnd[t.node.id] == at
  {
    hide Sorted, InOrder, Elems, Changed, Cut, Holds;
    StandingFamily(st, at, t);
    CutOrder(t);
    CutChanges(st, at, t);
    CutIs(st, at, t);
    CutHolds(st, at, t, false);
    CutHolds(st, at, t, true);
    CutLeaf(st, at, t);
  }

  lemma CutIs(st: Store, at: int, t: Tree)
    requires Standing(st, at, t) && t.Fork? && t.node.id < |st.hnd| && st.hnd[t.node.id] == at
    ensures 0 < at < |st.links|
    ensures Cut(st, t.node.id) == st.(links := st.links[at := NULL], hnd := st.hnd[t.node.id := NULL])
    ensures st.bot[t.node.id] == t.node.bot && st.top[t.node.id] == t.node.top && FIRST_NODE <= t.node.id
  {
    hide Sorted, InOrder, Distinct;
  }

  lemma CutLeaf(st: Store, at: int, t: Tree)
    requires Standing(st, at, t) && t.Fork? && t.node.id < |st.hnd| && st.hnd[t.node.id] == at
    ensures 0 < at < |st.links| && Holds(Cut(st, t.node.id), at, Leaf) && Shaped(Cut(st, t.node.id))
  {
    hide Sorted, InOrder, Distinct, Cut;
    CutIs(st, at, t);
  }

  /** The subtrees of a node that is cut stay where they are. */
  lemma CutHolds(st: Store, at: int, t: Tree, d: bool)
    requires Standing(st, at, t) && t.Fork? && t.node.id < |st.hnd| && st.hnd[t.node.id] == at
    ensures 0 < at < |st.links| && Shaped(Cut(st, t.node.id))
    ensures Holds(Cut(st, t.node.id), LinkTo(t.node.id, d), Kid(t, d))
  {
    hide Sorted, InOrder, Cut;
    CutIs(st, at, t);
    assert Holds(st, LinkTo(t.node.id, d), Kid(t, d)) && LinkTo(t.node.id, d) / 2 == t.node.id;
    HoldsSame(st, Cut(st, t.node.id), LinkTo(t.node.id, d), Kid(t, d));
  }

  lemma CutChanges(st: Store, at: int, t: Tree)
    requires Shaped(st) && t.Fork? && t.node.id < |st.hnd| && st.hnd[t.node.id] == at && 0 <= at < |st.links|
    ensures Changed(st, Cut(st, t.node.id), at, Ids(t))
  {
  }

  lemma CutOrder(t: Tree)
    requires t.Fork? && Sorted(InOrder(t))
    ensures t.node.bot <= t.node.top && Sorted(InOrder(t.prv))
    ensures Sorted(InOrder(t.nxt)) && Sorted(InOrder(t.prv) + InOrder(t.nxt))
    ensures Sorted(InOrder(Leaf))
    ensures Elems(InOrder(Leaf)) + Elems(InOrder(t.prv)) + Elems(InOrder(t.nxt)) ==
      Elems(InOrder(t.prv) + InOrder(t.nxt))
  {
    SortedParts(InOrder(t.prv), t.node, InOrder(t.nxt));
    SortedWithout(InOrder(t.prv), t.node, InOrder(t.nxt));
    ElemsJoin(InOrder(t.prv), InOrder(t.nxt));
    assert Elems(InOrder(Leaf)) == {};
  }

  lemma DeletedOne(st: Store, at: int, t: Tree)
    requires t.Fork? && !TwoKids(t) && Standing(st, at, OnlyKid(t)) && Loose(st, Single(t.node))
    requires Ids(t) == Ids(OnlyKid(t)) + {t.node.id} && t.node.id !in Ids(OnlyKid(t))
    ensures Deleted(st, at, t, OnlyKid(t))
  {
    OnlyKidOrder(t);
  }

  lemma ConsumedMore(st: Store, st1: Store, st2: Store, at: int, t: Tree, a: Tree, l: Tree, r: Tree, ids: set<nat>)
    requires Shaped(st) && Changed(st, st1, at, Ids(t)) && t.Fork?
    requires Changed(st1, st2, at, Ids(a) + Ids(l) + Ids(r) + {t.node.id}) && Ids(a) + Ids(l) + Ids(r) == ids
    requires Ids(t) == ids + {t.node.id}
    ensures Changed(st, st2, at, Ids(t)) && st2.bot == st1.bot && st2.top == st1.top
  {
    ChangedTrans(st, st1, st2, at, Ids(t));
  }

  lemma ConsumedAll(st: Store, at: int, t: Tree, a: Tree, l: Tree, r: Tree, u: seq<Node>)
    requires t.Fork? && Consuming(st, at, t.node.id, a, l, r, u)
    requires l.Leaf? && r.Leaf? && u == InOrder(t.prv) + InOrder(t.nxt)
    requires Distinct(t) && Ids(a) + Ids(l) + Ids(r) == Ids(t.prv) + Ids(t.nxt)
    requires st.bot[t.node.id] == t.node.bot && st.top[t.node.id] == t.node.top && t.node.bot <= t.node.top
    ensures Deleted(st, at, t, a)
  {
    hide Sorted, InOrder;
    ForkIds(t);
    assert Elems(InOrder(Leaf)) == {} by {
      LeafOrder();
    }
    SortedUnique(InOrder(a), u);
    SingleOrder(t.node);
    SingleSorted(t.node);
  }

  lemma LeafOrder()
    ensures InOrder(Leaf) == []
  {
  }

  lemma SingleSorted(n: Node)
    requires n.bot <= n.top
    ensures Sorted([n])
  {
  }

  /** Sorted sequences with the same elements are equal. */
  lemma {:induction false} SortedUnique(a: seq<Node>, b: seq<Node>)
    requires Sorted(a) && Sorted(b) && Elems(a) == Elems(b)
    ensures a == b
    decreases |a|
  {
    ElemsCount(a);
    ElemsCount(b);
    if a != [] {
      FirstAgree(a, b);
      FirstAgree(b, a);
      TailElems(a);
      TailElems(b);
      SortedTail(a);
      SortedTail(b);
      SortedUnique(a[1..], b[1..]);
      assert a == [a[0]] + a[1..] && b == [b[0]] + b[1..];
    }
  }

  lemma {:induction false} ElemsCount(a: seq<Node>)
    requires Sorted(a)
    ensures |Elems(a)| == |a|
    decreases |a|
  {
    if a != [] {
      TailElems(a);
      SortedTail(a);
      ElemsCount(a[1..]);
      assert a[0] in Elems(a);
    }
  }

  lemma FirstAgree(a: seq<Node>, b: seq<Node>)
    requires Sorted(a) && Sorted(b) && Elems(a) == Elems(b) && a != [] && b != []
    ensures b[0].bot <= a[0].bot && (a[0].bot <= b[0].bot ==> a[0] == b[0])
  {
    assert a[0] in Elems(a);
    var k :| 0 <= k < |b| && b[k] == a[0];
    assert b[0].bot <= b[0].top;
  }

  lemma TailElems(a: seq<Node>)
    requires Sorted(a) && a != []
    ensures Elems(a[1..]) == Elems(a) - {a[0]}
  {
    assert a == [a[0]] + a[1..];
    ElemsJoin([a[0]], a[1..]);
    forall n | n in a[1..]
      ensures n != a[0]
    {
      var k :| 0 <= k < |a[1..]| && a[1..][k] == n;
      assert a[0].top < a[k + 1].bot && a[0].bot <= a[0].top && a[k + 1].bot <= a[k + 1].top;
    }
  }

  lemma SortedTail(a: seq<Node>)
    requires Sorted(a) && a != []
    ensures Sorted(a[1..])
  {
    assert a == [a[0]] + a[1..];
    SortedHalves([a[0]], a[1..]);
  }

  // Addresses covered ---------------------------------------------------------------------------

  ghost predicate Covers(s: seq<Node>, x: int) {
    exists i {:trigger s[i]} :: 0 <= i < |s| && s[i].bot <= x <= s[i].top
  }

  /** The first and the last address are never banned. */
  ghost predicate Addresses(s: seq<Node>) {
    forall x {:trigger Covers(s, x)} :: Covers(s, x) ==> 0 < x < UINT_MAX
  }

  /** Between any two ranges there is an address that neither covers. */
  ghost predicate Separated(s: seq<Node>) {
    forall i, j {:trigger s[i], s[j]} :: 0 <= i < j < |s| ==> s[i].top + 1 < s[j].bot
  }

  predicate Overlaps(n: Node, b: int, t: int) {
    n.bot <= t && b <= n.top
  }

  /** v has the ranges of u that overlap [b, t], and w the others. */
  ghost predicate Parted(u: seq<Node>, w: seq<Node>, v: seq<Node>, b: int, t: int) {
    && Elems(w) + Elems(v) == Elems(u)
    && (forall n {:trigger n in Elems(w)} :: n in Elems(w) ==> !Overlaps(n, b, t))
    && (forall n {:trigger n in Elems(v)} :: n in Elems(v) ==> Overlaps(n, b, t))
  }

  // Harvesting a range ---------------------------------------------------------------------------

  /** u are the ranges at the start, y those taken out so far; all that is left
      to look at is below the place p. */
  ghost predicate Harvesting(st: Store, u: seq<Node>, a: Tree, p: Path, y: Tree, b: int, t: int, h: int) {
    && Standing(st, ROOT, a) && Standing(st, YIELD, y) && Ids(a) !! Ids(y)
    && IsPath(a, p) && LinkOf(ROOT, a, p) == h
    && Sorted(u) && Elems(InOrder(a)) + Elems(InOrder(y)) == Elems(u)
    && Under(Before(a, p), b) && Over(After(a, p), t)
    && forall n {:trigger n in Elems(InOrder(y))} :: n in Elems(InOrder(y)) ==> Overlaps(n, b, t)
  }

  lemma StartHarvest(st: Store, a: Tree, b: int, t: int)
    requires Standing(st, ROOT, a)
    ensures YIELD < |st.links| && Harvesting(st.(links := st.links[YIELD := NULL]), InOrder(a), a, [], Leaf, b, t, ROOT)
    ensures IsPath(a, [])
  {
    hide Sorted, Distinct;
    var st' := st.(links := st.links[YIELD := NULL]);
    HoldsBounds(st, ROOT, a);
    HoldsSame(st, st', ROOT, a);
    assert Elems(InOrder(Leaf)) == {};
    SortedEmpty();
  }

  lemma SortedEmpty()
    ensures InOrder(Leaf) == [] && Sorted(InOrder(Leaf)) && Distinct(Leaf)
  {
  }

  ghost predicate Known(st: Store, n: Node) {
    && FIRST_NODE <= n.id < |st.hnd| && n.id < |st.bot|
    && n.id < |st.top| && st.bot[n.id] == n.bot && st.top[n.id] == n.top
  }

  lemma HarvestAt(st: Store, u: seq<Node>, a: Tree, p: Path, y: Tree, b: int, t: int, h: int)
    requires Harvesting(st, u, a, p, y, b, t, h)
    ensures IsPath(a, p) && 0 <= h < |st.links|
    ensures var c := Sub(a, p);
            && Standing(st, h, c) && st.links[h] == RootId(c) && (RootId(c) == NULL <==> c.Leaf?)
            && (c.Fork? ==> Known(st, c.node))
  {
    SubStands(st, ROOT, a, p);
    Family(st, h, Sub(a, p));
  }

  lemma HarvestDown(st: Store, u: seq<Node>, a: Tree, p: Path, y: Tree, b: int, t: int, h: int, d: bool)
    requires Harvesting(st, u, a, p, y, b, t, h) && Sub(a, p).Fork?
    requires var n := Sub(a, p).node; if d then n.top < b else t < n.bot
    ensures Harvesting(st, u, a, p + [d], y, b, t, LinkTo(Sub(a, p).node.id, d))
    ensures IsPath(a, p + [d]) && Size(Sub(a, p + [d])) < Size(Sub(a, p))
  {
    hide Before, After, InOrder, LinkOf, Sub, IsPath, Sorted, Under, Over, Distinct, Holds, Elems;
    PathDown(a, p, d);
    LinkDown(ROOT, a, p, d);
    var c := Sub(a, p);
    SubStands(st, ROOT, a, p);
    WalkSides(c, if d then b else t, d);
    if d {
      UnderJoins(Before(a, p), InOrder(c.prv) + [c.node], b);
      DropEmpty(After(a, p));
    } else {
      OverJoins([c.node] + InOrder(c.nxt), After(a, p), t);
      DropEmpty(Before(a, p));
    }
  }

  /** The overlapping range at the place was deleted. */
  lemma HarvestOut(st: Store, st1: Store, u: seq<Node>, a: Tree, p: Path, y: Tree, b: int, t: int, h: int, c': Tree)
    requires Harvesting(st, u, a, p, y, b, t, h) && Sub(a, p).Fork?
    requires Deleted(st1, h, Sub(a, p), c') && Changed(st, st1, h, Ids(Sub(a, p)))
    ensures var a', n := Replace(a, p, c'), Sub(a, p).node;
            && Shaped(st1) && Standing(st1, ROOT, a') && Standing(st1, YIELD, y)
            && Loose(st1, Single(n)) && Ids(Single(n)) == {n.id}
            && Ids(a') + {n.id} == Ids(a) && n.id !in Ids(a') && n.id !in Ids(y) && YIELD / 2 != n.id
            && Elems(InOrder(a')) + {n} == Elems(InOrder(a)) && Fits(InOrder(y), InOrder(Single(n)))
  {
    hide Holds, Before, After, InOrder, Distinct, Replace, LinkOf, Sub, IsPath, Sorted, Elems, Under, Over, Fits;
    var c := Sub(a, p);
    var n := c.node;
    SubStands(st, ROOT, a, p);
    HoldsBounds(st, ROOT, a);
    HoldsBounds(st, YIELD, y);
    ReplaceOrder(a, p, c');
    ReplaceIds(a, p, c');
    HoldsReplace(st, st1, ROOT, a, p, c', Ids(c));
    DeletedOrder(c);
    PluckOrder(Before(a, p), InOrder(c.prv), n, InOrder(c.nxt), After(a, p));
    StandingKept(st, st1, h, Ids(c), YIELD, y);
    SingleIds(n);
    SingleFits(y, a, n, u);
  }

  lemma DeletedOrder(c: Tree)
    requires c.Fork?
    ensures InOrder(c) == InOrder(c.prv) + [c.node] + InOrder(c.nxt) && c.node.id in Ids(c)
  {
  }

  lemma SingleIds(n: Node)
    ensures Ids(Single(n)) == {n.id}
  {
    assert Ids(Leaf) == {};
  }

  /** It was appended to the harvest. */
  lemma HarvestIn(st: Store, st1: Store, st2: Store, u: seq<Node>, a: Tree, p: Path, y: Tree, b: int, t: int, h: int,
      c: Tree, c': Tree, y1: Tree, q: Path)
    requires Harvesting(st, u, a, p, y, b, t, h) && c == Sub(a, p) && c.Fork? && Overlaps(c.node, b, t)
    requires Standing(st1, ROOT, Replace(a, p, c')) && Standing(st1, YIELD, y)
    requires AppendedAt(y, Single(c.node), y1, q) && Standing(st2, YIELD, Replace(y1, q, Single(c.node)))
    requires Shaped(st1) && Changed(st1, st2, YIELD, Ids(y) + {c.node.id}) && Ids(Single(c.node)) == {c.node.id}
    requires Ids(Replace(a, p, c')) + {c.node.id} == Ids(a) && c.node.id !in Ids(Replace(a, p, c'))
    requires Elems(InOrder(Replace(a, p, c'))) + {c.node} == Elems(InOrder(a))
    requires InOrder(c') == InOrder(c.prv) + InOrder(c.nxt)
    ensures var a', y' := Replace(a, p, c'), Replace(y1, q, Single(c.node));
            && Harvesting(st2, u, a', p, y', b, t, h) && IsPath(a', p) && Size(Sub(a', p)) < Size(c)
  {
    hide Holds, Before, After, InOrder, Distinct, LinkOf, Sub, IsPath, Sorted, Under, Over, Fits, Replace;
    var a', y', n := Replace(a, p, c'), Replace(y1, q, Single(c.node)), c.node;
    ReplacePath(a, p, c');
    LinkReplace(ROOT, a, p, c');
    HoldsBounds(st, ROOT, a);
    HoldsBounds(st, YIELD, y);
    StandingKept(st1, st2, YIELD, Ids(y) + {n.id}, ROOT, a');
    AppendedElems(y, n, y1, q);
    DeletedOrder(c);
    SizeIs(c);
    SizeIs(c');
  }

  lemma AppendedElems(y: Tree, n: Node, y1: Tree, q: Path)
    requires AppendedAt(y, Single(n), y1, q)
    ensures Elems(InOrder(Replace(y1, q, Single(n)))) == Elems(InOrder(y)) + {n}
  {
    hide Before, After, InOrder, Replace, Sub, Ids;
    SingleOrder(n);
    ElemsJoin(Before(y1, q) + [n], After(y1, q));
    ElemsJoin(Before(y1, q), [n]);
    ElemsJoin(Before(y1, q), After(y1, q));
  }

  lemma HarvestDone(st: Store, u: seq<Node>, a: Tree, p: Path, y: Tree, b: int, t: int, h: int)
    requires Harvesting(st, u, a, p, y, b, t, h) && Sub(a, p).Leaf?
    ensures Standing(st, ROOT, a) && Standing(st, YIELD, y) && Ids(a) !! Ids(y)
    ensures Parted(u, InOrder(a), InOrder(y), b, t)
    ensures YIELD < |st.links| && st.links[YIELD] == RootId(y)
  {
    hide Holds, Before, After, Distinct, Sorted, Elems;
    ReplaceOrder(a, p, Leaf);
    Family(st, YIELD, y);
    DropEmpty(Before(a, p));
    NoneHit(Before(a, p), After(a, p), b, t);
  }

  lemma NoneHit(x: seq<Node>, z: seq<Node>, b: int, t: int)
    requires Under(x, b) && Over(z, t)
    ensures forall n {:trigger n in Elems(x + z)} :: n in Elems(x + z) ==> !Overlaps(n, b, t)
  {
    ElemsJoin(x, z);
  }

  // Storing a new range ----------------------------------------------------------------------------

  /** Memory with one more node. */
  function Grown(st: Store, b: int, t: int): (r: Store) {
    Store(st.links + [NULL, NULL], st.hnd + [NULL], st.bot + [b], st.top + [t])
  }

  lemma {:induction false} GrownHolds(st: Store, b: int, t: int, at: int, a: Tree)
    requires Shaped(st) && Holds(st, at, a)
    ensures Shaped(Grown(st, b, t)) && Holds(Grown(st, b, t), at, a)
    decreases a
  {
    if a.Fork? {
      GrownHolds(st, b, t, LinkTo(a.node.id, false), a.prv);
      GrownHolds(st, b, t, LinkTo(a.node.id, true), a.nxt);
    }
  }

  lemma GrownStands(st: Store, b: int, t: int, at: int, a: Tree)
    requires Standing(st, at, a)
    ensures Standing(Grown(st, b, t), at, a)
  {
    GrownHolds(st, b, t, at, a);
  }

  lemma GrownLoose(st: Store, b: int, t: int, a: Tree, y: Tree)
    requires Standing(st, ROOT, a) && Standing(st, COPY, y) && b <= t
    requires forall x :: b <= x <= t ==> !Covers(InOrder(a), x)
    ensures var n := Node(|st.hnd|, b, t);
            && Shaped(Grown(st, b, t)) && Loose(Grown(st, b, t), Single(n)) && Ids(Single(n)) == {n.id}
            && n.id !in Ids(a) && n.id !in Ids(y) && n.id > COPY / 2 && Fits(InOrder(a), InOrder(Single(n)))
  {
    hide Sorted, InOrder;
    var n, st' := Node(|st.hnd|, b, t), Grown(st, b, t);
    HoldsBounds(st, ROOT, a);
    HoldsBounds(st, COPY, y);
    SingleIds(n);
    SingleOrder(n);
    SingleSorted(n);
    UncoveredFits(InOrder(a), n);
    assert st'.links[LinkTo(n.id, false)] == NULL == st'.links[LinkTo(n.id, true)];
    assert Holds(st', LinkTo(n.id, false), Leaf) && Holds(st', LinkTo(n.id, true), Leaf);
    assert Distinct(Leaf) && Distinct(Single(n));
    assert st'.bot[n.id] == n.bot && st'.top[n.id] == n.top && n.id < |st'.hnd|;
  }

  lemma UncoveredFits(s: seq<Node>, n: Node)
    requires Sorted(s) && n.bot <= n.top && forall x :: n.bot <= x <= n.top ==> !Covers(s, x)
    ensures Fits(s, [n])
  {
    forall i | 0 <= i < |s|
      ensures Below(s[i], [n]) || Above(s[i], [n])
    {
      var x := if s[i].bot < n.bot then n.bot else s[i].bot;
      assert n.bot <= x <= n.top ==> !Covers(s, x);
    }
  }

  lemma InsertKeeps(st1: Store, st2: Store, a: Tree, y: Tree, n: Node, t1: Tree, p: Path)
    requires Standing(st1, COPY, y) && Ids(a) !! Ids(y) && n.id !in Ids(y)
    requires Ids(Single(n)) == {n.id} && n.id > COPY / 2
    requires Standing(st1, ROOT, a) && Changed(st1, st2, ROOT, Ids(a) + {n.id}) && AppendedAt(a, Single(n), t1, p)
    ensures Standing(st2, COPY, y) && Ids(Replace(t1, p, Single(n))) !! Ids(y)
    ensures COPY < |st1.links| && COPY < |st2.links| && st2.links[COPY] == st1.links[COPY]
  {
    hide Holds, InOrder, Before, After, Sub, Replace, Sorted, ShapeKept, Distinct;
    HoldsBounds(st1, ROOT, a);
    HoldsBounds(st1, COPY, y);
    StandingKept(st1, st2, ROOT, Ids(a) + {n.id}, COPY, y);
  }

  /** w covers what u covers and [b, t] besides; if u is separated and leaves
      room around [b, t], w is separated too. */
  ghost predicate Stored(u: seq<Node>, w: seq<Node>, b: int, t: int) {
    && |w| == |u| + 1
    && (forall x :: Covers(w, x) <==> Covers(u, x) || b <= x <= t)
    && (Separated(u) && !Covers(u, b - 1) && !Covers(u, t + 1) ==> Separated(w))
  }

  lemma InsertStores(a: Tree, n: Node, t1: Tree, p: Path)
    requires AppendedAt(a, Single(n), t1, p) && n.bot <= n.top
    requires Sorted(InOrder(a)) && Sorted(InOrder(Replace(t1, p, Single(n))))
    ensures Stored(InOrder(a), InOrder(Replace(t1, p, Single(n))), n.bot, n.top)
  {
    hide InOrder, Before, After, Sub, Replace, ShapeKept;
    SingleOrder(n);
    AfterIsOver(a, n, t1, p);
    StoredBetween(Before(t1, p), n, After(t1, p));
  }

  lemma AfterIsOver(a: Tree, n: Node, t1: Tree, p: Path)
    requires AppendedAt(a, Single(n), t1, p) && Sorted(InOrder(Replace(t1, p, Single(n))))
    ensures Over(After(t1, p), n.top)
  {
    hide InOrder, Before, After, Sub, Replace, ShapeKept;
    SingleOrder(n);
    SortedParts(Before(t1, p), n, After(t1, p));
  }

  lemma StoredBetween(c: seq<Node>, n: Node, d: seq<Node>)
    requires n.bot <= n.top && Sorted(c + d) && Under(c, n.bot) && Over(d, n.top)
    ensures Stored(c + d, c + [n] + d, n.bot, n.top)
  {
    forall x
      ensures Covers(c + [n] + d, x) <==> Covers(c + d, x) || n.bot <= x <= n.top
    {
      CoversJoin(c + [n], d, x);
      CoversJoin(c, [n], x);
      CoversJoin(c, d, x);
      CoversOne(n, x);
    }
    if Separated(c + d) && !Covers(c + d, n.bot - 1) && !Covers(c + d, n.top + 1) {
      SeparatedBetween(c, n, d);
    }
  }

  lemma CoversOne(n: Node, x: int)
    ensures Covers([n], x) <==> n.bot <= x <= n.top
  {
    assert [n][0] == n;
  }

  lemma CoversJoin(a: seq<Node>, b: seq<Node>, x: int)
    ensures Covers(a + b, x) <==> Covers(a, x) || Covers(b, x)
  {
    var s := a + b;
    if Covers(a, x) {
      var i :| 0 <= i < |a| && a[i].bot <= x <= a[i].top;
      assert s[i] == a[i];
    }
    if Covers(b, x) {
      var i :| 0 <= i < |b| && b[i].bot <= x <= b[i].top;
      assert s[|a| + i] == b[i];
    }
    if Covers(s, x) {
      var i :| 0 <= i < |s| && s[i].bot <= x <= s[i].top;
      ConcatAt(a, b, i);
    }
  }

  lemma SeparatedBetween(c: seq<Node>, n: Node, d: seq<Node>)
    requires n.bot <= n.top && Sorted(c + d) && Separated(c + d) && Under(c, n.bot) && Over(d, n.top)
    requires !Covers(c + d, n.bot - 1) && !Covers(c + d, n.top + 1)
    ensures Separated(c + [n] + d)
  {
    var s, u := c + [n] + d, c + d;
    forall i, j | 0 <= i < j < |s|
      ensures s[i].top + 1 < s[j].bot
    {
      SplitAt(c, [n], d, i);
      SplitAt(c, [n], d, j);
      if j == |c| {
        assert u[i] == c[i];
      } else if i == |c| {
        assert u[j - 1] == d[j - 1 - |c|];
      } else {
        var i', j' := if i < |c| then i else i - 1, if j < |c| then j else j - 1;
        assert u[i'] == s[i] && u[j'] == s[j];
      }
    }
  }

  /** y' has one range less than y. */
  ghost predicate Without(y: Tree, y': Tree, n: Node) {
    && Elems(InOrder(y')) + {n} == Elems(InOrder(y)) && n !in Elems(InOrder(y'))
    && |InOrder(y')| + 1 == |InOrder(y)| && Size(y') < Size(y)
  }

  // Adding ----------------------------------------------------------------------------------------

  lemma TakenOver(st: Store, a: Tree, y: Tree)
    requires Standing(st, ROOT, a) && Standing(st, YIELD, y) && Ids(a) !! Ids(y)
    ensures COPY < |st.links| && RootId(y) < |st.hnd|
    ensures var hnd := if y.Fork? then st.hnd[y.node.id := COPY] else st.hnd;
            var st' := st.(links := st.links[COPY := RootId(y)], hnd := hnd);
            && Standing(st', ROOT, a) && Standing(st', COPY, y) && (RootId(y) == NULL <==> y.Leaf?)
  {
    hide Sorted, InOrder;
    HoldsBounds(st, ROOT, a);
    HoldsBounds(st, YIELD, y);
    var st' := st.(links := st.links[COPY := RootId(y)], hnd := if y.Fork? then st.hnd[y.node.id := COPY] else st.hnd);
    if y.Fork? {
      assert y.node.id in Ids(y);
      HoldsSame(st, st', LinkTo(y.node.id, false), y.prv);
      HoldsSame(st, st', LinkTo(y.node.id, true), y.nxt);
    }
    HoldsSame(st, st', ROOT, a);
  }

  ghost predicate CoversAny(s: set<Node>, x: int) {
    exists n {:trigger n in s} :: n in s && n.bot <= x <= n.top
  }

  lemma CoversElems(s: seq<Node>, x: int)
    ensures Covers(s, x) <==> CoversAny(Elems(s), x)
  {
    if Covers(s, x) {
      var i :| 0 <= i < |s| && s[i].bot <= x <= s[i].top;
      assert s[i] in Elems(s);
    }
    if CoversAny(Elems(s), x) {
      var n :| n in Elems(s) && n.bot <= x <= n.top;
      var i :| 0 <= i < |s| && s[i] == n;
    }
  }

  /** The ranges of v that are no longer in rest span, with [b0, t0], just [b, t]. */
  ghost predicate Spans(v: seq<Node>, rest: seq<Node>, b0: int, t0: int, b: int, t: int) {
    && Elems(rest) <= Elems(v) && b <= b0 && t0 <= t
    && (forall n {:trigger n in Elems(v)} :: n in Elems(v) && n !in Elems(rest) ==> b <= n.bot && n.top <= t)
    && (b == b0 || exists n {:trigger n in Elems(v)} :: n in Elems(v) && n.bot == b)
    && (t == t0 || exists n {:trigger n in Elems(v)} :: n in Elems(v) && n.top == t)
  }

  lemma SpanStarts(v: seq<Node>, b0: int, t0: int)
    ensures Spans(v, v, b0, t0, b0, t0)
  {
  }

  lemma SpanGrows(v: seq<Node>, rest: seq<Node>, rest': seq<Node>, n: Node, b0: int, t0: int, b: int, t: int)
    requires Spans(v, rest, b0, t0, b, t) && Elems(rest') + {n} == Elems(rest)
    ensures Spans(v, rest', b0, t0, if n.bot < b then n.bot else b, if n.top > t then n.top else t)
  {
    hide Elems;
    assert n in Elems(rest);
    assert n in Elems(v);
  }

  lemma PartedCount(u: seq<Node>, w: seq<Node>, v: seq<Node>, b: int, t: int, a: Tree, y: Tree)
    requires Parted(u, w, v, b, t) && Sorted(u) && Sorted(w) && Sorted(v)
    ensures |u| == |w| + |v|
  {
    ElemsCount(u);
    ElemsCount(w);
    ElemsCount(v);
    forall n | n in Elems(w)
      ensures n !in Elems(v)
    {
    }
  }

  /** Disjoint and separated, said of elements. */
  lemma Apart(u: seq<Node>, n: Node, m: Node)
    requires Sorted(u) && Separated(u) && n in Elems(u) && m in Elems(u)
    ensures n.bot <= n.top && m.bot <= m.top && (n == m || n.top + 1 < m.bot || m.top + 1 < n.bot)
  {
    var i, j :| 0 <= i < |u| && 0 <= j < |u| && u[i] == n && u[j] == m;
  }

  lemma SeparatedSubset(u: seq<Node>, w: seq<Node>)
    requires Sorted(u) && Separated(u) && Sorted(w) && Elems(w) <= Elems(u)
    ensures Separated(w)
  {
    forall i, j | 0 <= i < j < |w|
      ensures w[i].top + 1 < w[j].bot
    {
      assert w[i] in Elems(w) && w[j] in Elems(w);
      assert w[i].top < w[j].bot && w[i].bot <= w[i].top && w[j].bot <= w[j].top;
      Apart(u, w[i], w[j]);
    }
  }

  /** What is left does not come near the range that is to be stored. */
  lemma SpanFits(u: seq<Node>, w: seq<Node>, v: seq<Node>, b0: int, t0: int, b: int, t: int, a: Tree)
    requires Sorted(u) && Separated(u) && Sorted(w) && Parted(u, w, v, b0 - 1, t0 + 1) && b0 <= t0
    requires Spans(v, [], b0, t0, b, t)
    ensures b <= t && Separated(w) && forall x :: b - 1 <= x <= t + 1 ==> !Covers(w, x)
  {
    hide Sorted, Separated, Elems, Covers;
    SeparatedSubset(u, w);
    forall x | b - 1 <= x <= t + 1
      ensures !Covers(w, x)
    {
      CoversElems(w, x);
      if m :| m in Elems(w) && m.bot <= x <= m.top {
        SpanClear(u, w, v, b0, t0, b, t, m);
      }
    }
  }

  lemma SpanClear(u: seq<Node>, w: seq<Node>, v: seq<Node>, b0: int, t0: int, b: int, t: int, m: Node)
    requires Sorted(u) && Separated(u) && Parted(u, w, v, b0 - 1, t0 + 1) && b0 <= t0 && m in Elems(w)
    requires Spans(v, [], b0, t0, b, t)
    ensures m.top < b - 1 || t + 1 < m.bot
  {
    hide Sorted, Separated, Elems;
    Apart(u, m, m);
    if m.top < b0 - 1 && b != b0 {
      var n :| n in Elems(v) && n.bot == b;
      Apart(u, n, m);
    }
    if t0 + 1 < m.bot && t != t0 {
      var n :| n in Elems(v) && n.top == t;
      Apart(u, n, m);
    }
  }

  lemma AddCovers(u: seq<Node>, w: seq<Node>, v: seq<Node>, w': seq<Node>, b0: int, t0: int, b: int, t: int)
    requires Parted(u, w, v, b0 - 1, t0 + 1) && b0 <= t0 && Spans(v, [], b0, t0, b, t) && Stored(w, w', b, t)
    ensures forall x :: Covers(w', x) <==> Covers(u, x) || b0 <= x <= t0
  {
    hide Elems, Covers;
    forall x
      ensures Covers(w, x) || b <= x <= t <==> Covers(u, x) || b0 <= x <= t0
    {
      CoversElems(w, x);
      CoversElems(u, x);
      SpanCovers(u, w, v, b0, t0, b, t, x);
    }
  }

  lemma EmptyElems()
    ensures Elems([]) == {}
  {
  }

  lemma SpanCovers(u: seq<Node>, w: seq<Node>, v: seq<Node>, b0: int, t0: int, b: int, t: int, x: int)
    requires Parted(u, w, v, b0 - 1, t0 + 1) && b0 <= t0 && Spans(v, [], b0, t0, b, t)
    ensures CoversAny(Elems(w), x) || b <= x <= t <==> CoversAny(Elems(u), x) || b0 <= x <= t0
  {
    hide Elems;
    if b <= x < b0 {
      var n :| n in Elems(v) && n.bot == b;
      assert n in Elems(u);
    }
    if t0 < x <= t {
      var n :| n in Elems(v) && n.top == t;
      assert n in Elems(u);
    }
    if CoversAny(Elems(w), x) {
      var n :| n in Elems(w) && n.bot <= x <= n.top;
      assert n in Elems(u);
    }
    if CoversAny(Elems(u), x) {
      var n :| n in Elems(u) && n.bot <= x <= n.top;
      assert n in Elems(w) || n in Elems(v);
      EmptyElems();
    }
  }

  // Removing --------------------------------------------------------------------------------------

  lemma RootNull(st: Store, y: Tree)
    requires Standing(st, YIELD, y)
    ensures (RootId(y) == NULL <==> y.Leaf?) && (y.Leaf? <==> InOrder(y) == [])
  {
  }

  /** s covers what w covers and, outside [b, t], what the ranges of v do that
      are no longer in rest. */
  ghost predicate Trimmed(u: seq<Node>, w: seq<Node>, v: seq<Node>, rest: seq<Node>, s: seq<Node>, b: int, t: int) {
    && Sorted(u) && Separated(u) && Parted(u, w, v, b, t) && b <= t && Elems(rest) <= Elems(v) && Separated(s)
    && forall x {:trigger Covers(s, x)} ::
      Covers(s, x) <==> CoversAny(Elems(w), x) || (CoversAny(Elems(v) - Elems(rest), x) && !(b <= x <= t))
  }

  lemma NoneTaken(u: seq<Node>, w: seq<Node>, v: seq<Node>, b: int, t: int)
    requires Sorted(u) && Separated(u) && Sorted(w) && Parted(u, w, v, b, t) && v == []
    ensures u == w && forall x :: b <= x <= t ==> !Covers(u, x)
  {
    hide Sorted, Covers, Elems;
    EmptyElems();
    SortedUnique(u, w);
    forall x | b <= x <= t
      ensures !Covers(u, x)
    {
      CoversElems(u, x);
    }
  }

  lemma TrimStarts(u: seq<Node>, w: seq<Node>, v: seq<Node>, b: int, t: int)
    requires Sorted(u) && Separated(u) && Sorted(w) && Parted(u, w, v, b, t) && b <= t
    ensures Trimmed(u, w, v, v, w, b, t)
  {
    hide Sorted, Separated, Covers, Elems;
    SeparatedSubset(u, w);
    forall x
      ensures Covers(w, x) <==> CoversAny(Elems(w), x) || (CoversAny(Elems(v) - Elems(v), x) && !(b <= x <= t))
    {
      CoversElems(w, x);
    }
  }

  /** Where the ranges of u other than n are. */
  lemma Elsewhere(u: seq<Node>, w: seq<Node>, v: seq<Node>, rest: seq<Node>, n: Node, b: int, t: int, x: int)
    requires Sorted(u) && Separated(u) && Parted(u, w, v, b, t) && Elems(rest) <= Elems(v) && n in Elems(rest)
    requires n.bot - 1 <= x <= n.top + 1
    ensures !CoversAny(Elems(w), x) && !CoversAny(Elems(v) - Elems(rest), x)
    ensures b <= n.top && n.bot <= t && n.bot <= n.top
  {
    hide Sorted, Separated, Elems;
    assert n in Elems(v);
    assert n in Elems(u);
    Apart(u, n, n);
    if m :| m in Elems(w) && m.bot <= x <= m.top {
      assert m in Elems(u);
      Apart(u, n, m);
    }
    if m :| m in Elems(v) - Elems(rest) && m.bot <= x <= m.top {
      assert m in Elems(u);
      Apart(u, n, m);
    }
  }

  lemma UpperRoom(u: seq<Node>, w: seq<Node>, v: seq<Node>, rest: seq<Node>, rest': seq<Node>, n: Node, s: seq<Node>,
      b: int, t: int)
    requires Trimmed(u, w, v, rest, s, b, t) && Elems(rest') + {n} == Elems(rest) && n.top > t
    ensures t + 1 <= n.top && (forall x :: t + 1 <= x <= n.top ==> !Covers(s, x))
    ensures !Covers(s, t) && !Covers(s, n.top + 1)
  {
    hide Sorted, Separated, Elems, Covers;
    assert n in Elems(rest);
    Elsewhere(u, w, v, rest, n, b, t, n.top);
    forall x | t <= x <= n.top + 1
      ensures !Covers(s, x)
    {
      if x >= n.bot {
        Elsewhere(u, w, v, rest, n, b, t, x);
      }
    }
  }

  lemma LowerRoom(u: seq<Node>, w: seq<Node>, v: seq<Node>, rest: seq<Node>, rest': seq<Node>, n: Node, s0: seq<Node>,
      s: seq<Node>, b: int, t: int)
    requires Trimmed(u, w, v, rest, s0, b, t) && Elems(rest') + {n} == Elems(rest) && n.bot < b
    requires if n.top > t then Stored(s0, s, t + 1, n.top) else s == s0
    ensures n.bot <= b - 1 && (forall x :: n.bot <= x <= b - 1 ==> !Covers(s, x))
    ensures !Covers(s, n.bot - 1) && !Covers(s, b)
  {
    hide Sorted, Separated, Elems, Covers;
    assert n in Elems(rest);
    Elsewhere(u, w, v, rest, n, b, t, n.top);
    forall x | n.bot - 1 <= x <= b
      ensures !Covers(s, x)
    {
      if x <= n.top {
        Elsewhere(u, w, v, rest, n, b, t, x);
      }
      assert Covers(s, x) <==> Covers(s0, x) || (n.top > t && t + 1 <= x <= n.top);
    }
  }

  lemma TrimGrows(u: seq<Node>, w: seq<Node>, v: seq<Node>, rest: seq<Node>, rest': seq<Node>, n: Node,
                  s0: seq<Node>, s1: seq<Node>, s2: seq<Node>, b: int, t: int)
    requires Trimmed(u, w, v, rest, s0, b, t) && Elems(rest') + {n} == Elems(rest) && n !in Elems(rest')
    requires if n.top > t then Stored(s0, s1, t + 1, n.top) && !Covers(s0, t) && !Covers(s0, n.top + 1) else s1 == s0
    requires if n.bot < b then Stored(s1, s2, n.bot, b - 1) && !Covers(s1, n.bot - 1) && !Covers(s1, b) else s2 == s1
    ensures Trimmed(u, w, v, rest', s2, b, t)
  {
    hide Sorted, Separated, Elems, Covers, Parted;
    assert n in Elems(rest);
    assert Elems(v) - Elems(rest') == (Elems(v) - Elems(rest)) + {n};
    forall x
      ensures Covers(s2, x) <==> CoversAny(Elems(w), x) || (CoversAny(Elems(v) - Elems(rest'), x) && !(b <= x <= t))
    {
      CoversMore(Elems(v) - Elems(rest), n, x);
      assert Covers(s1, x) <==> Covers(s0, x) || (n.top > t && t + 1 <= x <= n.top);
      assert Covers(s2, x) <==> Covers(s1, x) || (n.bot < b && n.bot <= x <= b - 1);
      TrimPieces(u, w, v, rest, n, b, t);
    }
  }

  lemma TrimPieces(u: seq<Node>, w: seq<Node>, v: seq<Node>, rest: seq<Node>, n: Node, b: int, t: int)
    requires Sorted(u) && Separated(u) && Parted(u, w, v, b, t) && Elems(rest) <= Elems(v) && n in Elems(rest)
    ensures b <= n.top && n.bot <= t && n.bot <= n.top
  {
    hide Sorted, Separated, Elems;
    assert n in Elems(v);
    assert n in Elems(u);
    Apart(u, n, n);
  }

  lemma CoversMore(s: set<Node>, n: Node, x: int)
    ensures CoversAny(s + {n}, x) <==> CoversAny(s, x) || n.bot <= x <= n.top
  {
    if CoversAny(s, x) {
      var m :| m in s && m.bot <= x <= m.top;
      assert m in s + {n};
    }
    assert n in s + {n};
  }

  lemma TrimDone(u: seq<Node>, w: seq<Node>, v: seq<Node>, s: seq<Node>, b: int, t: int)
    requires Trimmed(u, w, v, [], s, b, t)
    ensures Separated(s) && forall x :: Covers(s, x) <==> Covers(u, x) && !(b <= x <= t)
    ensures v != [] ==> exists x :: b <= x <= t && Covers(u, x)
  {
    hide Sorted, Separated, Elems, Covers;
    EmptyElems();
    assert Elems(v) - {} == Elems(v);
    forall x
      ensures Covers(s, x) <==> Covers(u, x) && !(b <= x <= t)
    {
      CoversElems(u, x);
      TrimmedAt(u, w, v, b, t, x);
    }
    if v != [] {
      SomeHit(u, w, v, b, t);
    }
  }

  lemma TrimmedAt(u: seq<Node>, w: seq<Node>, v: seq<Node>, b: int, t: int, x: int)
    requires Parted(u, w, v, b, t)
    ensures CoversAny(Elems(u), x) <==> CoversAny(Elems(w), x) || CoversAny(Elems(v), x)
    ensures CoversAny(Elems(w), x) ==> !(b <= x <= t)
  {
    hide Elems;
    if CoversAny(Elems(u), x) {
      var n :| n in Elems(u) && n.bot <= x <= n.top;
      assert n in Elems(w) || n in Elems(v);
    }
    if CoversAny(Elems(w), x) {
      var n :| n in Elems(w) && n.bot <= x <= n.top;
      assert n in Elems(u);
    }
    if CoversAny(Elems(v), x) {
      var n :| n in Elems(v) && n.bot <= x <= n.top;
      assert n in Elems(u);
    }
  }

  lemma SomeHit(u: seq<Node>, w: seq<Node>, v: seq<Node>, b: int, t: int)
    requires Sorted(u) && Separated(u) && Parted(u, w, v, b, t) && v != [] && b <= t
    ensures exists x :: b <= x <= t && Covers(u, x)
  {
    hide Sorted, Separated;
    var n := v[0];
    assert n in Elems(v) && n in Elems(u);
    Apart(u, n, n);
    var x := if n.bot < b then b else n.bot;
    CoversElems(u, x);
    assert CoversAny(Elems(u), x);
  }

  // Looking ------------------------------------------------------------------------------------------

  /** The place of the first range that starts above val, from place k on. */
  function FirstAbove(s: seq<Node>, val: int, k: nat): nat
    requires k <= |s|
    decreases |s| - k
  {
    if k == |s| || s[k].bot > val then k else FirstAbove(s, val, k + 1)
  }

  ghost predicate NoneAbove(s: seq<Node>, val: int) {
    forall i {:trigger s[i]} :: 0 <= i < |s| ==> s[i].bot <= val
  }

  /** best is the node of the first range of s, if there is any. */
  ghost predicate BestOf(st: Store, best: int, s: seq<Node>) {
    if s == [] then best == NULL else best == s[0].id && Known(st, s[0])
  }

  lemma AtTop(a: Tree)
    ensures IsPath(a, []) && Sub(a, []) == a && Before(a, []) == [] && After(a, []) == []
  {
  }

  lemma LookAt(st: Store, a: Tree, p: Path)
    requires Standing(st, ROOT, a) && IsPath(a, p)
    ensures ROOT < |st.links| && st.links[ROOT] == RootId(a)
    ensures var c := Sub(a, p);
            && (RootId(c) == NULL <==> c.Leaf?)
            && (c.Fork? ==> Known(st, c.node) && KidIs(st, c, false) && KidIs(st, c, true) && Sorted(InOrder(c)))
  {
    Family(st, ROOT, a);
    SubStands(st, ROOT, a, p);
    Family(st, LinkOf(ROOT, a, p), Sub(a, p));
  }

  lemma LookDown(st: Store, a: Tree, p: Path, d: bool)
    requires Standing(st, ROOT, a) && IsPath(a, p) && Sub(a, p).Fork?
    ensures IsPath(a, p + [d])
    ensures var c := Sub(a, p);
            && Sub(a, p + [d]) == Kid(c, d) && Size(Kid(c, d)) < Size(c)
            && Before(a, p + [d]) == Before(a, p) + (if d then InOrder(c.prv) + [c.node] else [])
            && After(a, p + [d]) == (if d then [] else [c.node] + InOrder(c.nxt)) + After(a, p)
            && (d ==> After(a, p + [d]) == After(a, p))
            && (!d ==> Before(a, p + [d]) == Before(a, p) && BestOf(st, c.node.id, After(a, p + [d])))
  {
    hide Before, After, Sub, IsPath, InOrder, Sorted, Distinct, Holds;
    PathDown(a, p, d);
    LookAt(st, a, p);
    DropEmpty(Before(a, p));
    DropEmpty(After(a, p));
    FrontOf(Sub(a, p).node, InOrder(Sub(a, p).nxt), After(a, p));
  }

  lemma FrontOf(n: Node, x: seq<Node>, y: seq<Node>)
    ensures ([n] + x + y) != [] && ([n] + x + y)[0] == n
  {
  }

  /** Which ranges of a sorted subtree start above val. */
  lemma LookSides(c: Tree, val: int)
    requires c.Fork? && Sorted(InOrder(c))
    ensures val < c.node.bot ==> Over([c.node] + InOrder(c.nxt), val)
    ensures c.node.bot <= val ==> NoneAbove(InOrder(c.prv) + [c.node], val)
    ensures c.node.bot <= val <= c.node.top ==> Over(InOrder(c.nxt), val)
    ensures Over(InOrder(c), val) ==> val < c.node.bot && Over(InOrder(c.prv), val) && Over(InOrder(c.nxt), val)
  {
    hide InOrder, Sorted;
    DeletedOrder(c);
    SidesFrom(InOrder(c.prv), c.node, InOrder(c.nxt), val);
    if Over(InOrder(c), val) {
      OverParts(InOrder(c.prv), c.node, InOrder(c.nxt), val);
    }
  }

  lemma SidesFrom(a: seq<Node>, n: Node, b: seq<Node>, val: int)
    requires Sorted(a + [n] + b)
    ensures val < n.bot ==> Over([n] + b, val)
    ensures n.bot <= val ==> NoneAbove(a + [n], val)
    ensures n.bot <= val <= n.top ==> Over(b, val)
  {
    SortedParts(a, n, b);
  }

  lemma OverParts(a: seq<Node>, n: Node, b: seq<Node>, val: int)
    requires Over(a + [n] + b, val)
    ensures val < n.bot && Over(a, val) && Over(b, val)
  {
    var s := a + [n] + b;
    assert s[|a|] == n;
    assert forall i :: 0 <= i < |a| ==> s[i] == a[i];
    assert forall i :: 0 <= i < |b| ==> s[|a| + 1 + i] == b[i];
  }

  lemma NoneAboveJoins(a: seq<Node>, b: seq<Node>, val: int)
    requires NoneAbove(a, val) && NoneAbove(b, val)
    ensures NoneAbove(a + b, val)
  {
  }

  lemma LookJoins(x: seq<Node>, c: Tree, z: seq<Node>, val: int)
    requires c.Fork? && NoneAbove(x, val) && Over(z, val)
    ensures NoneAbove(InOrder(c.prv) + [c.node], val) ==> NoneAbove(x + (InOrder(c.prv) + [c.node]), val)
    ensures Over([c.node] + InOrder(c.nxt), val) ==> Over([c.node] + InOrder(c.nxt) + z, val)
  {
    hide InOrder;
    if NoneAbove(InOrder(c.prv) + [c.node], val) {
      NoneAboveJoins(x, InOrder(c.prv) + [c.node], val);
    }
    if Over([c.node] + InOrder(c.nxt), val) {
      OverJoins([c.node] + InOrder(c.nxt), z, val);
    }
  }

  lemma LookDone(a: Tree, p: Path, val: int, first: bool)
    requires IsPath(a, p) && Sub(a, p).Leaf?
    requires if first then Before(a, p) == [] else NoneAbove(Before(a, p), val) && Over(After(a, p), val)
    ensures InOrder(a) == Before(a, p) + After(a, p)
    ensures !first ==> FirstAbove(InOrder(a), val, 0) == |Before(a, p)|
    ensures After(a, p) != [] ==> |Before(a, p)| < |InOrder(a)| && InOrder(a)[|Before(a, p)|] == After(a, p)[0]
    ensures After(a, p) == [] ==> |Before(a, p)| == |InOrder(a)|
  {
    hide Before, After, InOrder, IsPath, Sub;
    ReplaceOrder(a, p, Leaf);
    LeafOrder();
    DropEmpty(Before(a, p));
    if !first {
      FirstAboveIs(Before(a, p), After(a, p), val, 0);
    }
  }

  lemma {:induction false} FirstAboveIs(x: seq<Node>, z: seq<Node>, val: int, k: nat)
    requires NoneAbove(x, val) && Over(z, val) && k <= |x|
    ensures FirstAbove(x + z, val, k) == |x|
    decreases |x| - k
  {
    var s := x + z;
    if k < |x| {
      assert s[k] == x[k];
      FirstAboveIs(x, z, val, k + 1);
    } else if z != [] {
      assert s[k] == z[0];
    }
  }

  /** How many of the first k ranges overlap [b, t]. */
  function Hits(s: seq<Node>, b: int, t: int, k: nat): nat
    requires k <= |s|
  {
    if k == 0 then 0 else Hits(s, b, t, k - 1) + if Overlaps(s[k - 1], b, t) then 1 else 0
  }

  /** Hits counts the ranges that have an address from b to t. */
  lemma {:induction false} HitsAre(s: seq<Node>, b: int, t: int, k: nat)
    requires k <= |s|
    ensures Hits(s, b, t, k) == |set i: nat | i < k && s[i].bot <= t && b <= s[i].top|
    decreases k
  {
    var I := set i: nat | i < k && s[i].bot <= t && b <= s[i].top;
    if k > 0 {
      HitsAre(s, b, t, k - 1);
      var J := set i: nat | i < k - 1 && s[i].bot <= t && b <= s[i].top;
      assert I == if s[k - 1].bot <= t && b <= s[k - 1].top then J + {k - 1} else J;
    } else {
      assert I == {};
    }
  }

  lemma NotBefore(u: seq<Node>, k: nat)
    requires Sorted(u) && k < |u|
    ensures u[k] !in u[..k]
  {
  }

  lemma {:induction false} HitsElems(u: seq<Node>, b: int, t: int, k: nat)
    requires Sorted(u) && k <= |u|
    ensures |set n | n in u[..k] && Overlaps(n, b, t)| == Hits(u, b, t, k)
    decreases k
  {
    hide Sorted, Overlaps;
    var I := set n | n in u[..k] && Overlaps(n, b, t);
    if k > 0 {
      HitsElems(u, b, t, k - 1);
      var J := set n | n in u[..k - 1] && Overlaps(n, b, t);
      assert u[..k] == u[..k - 1] + [u[k - 1]];
      assert I == if Overlaps(u[k - 1], b, t) then J + {u[k - 1]} else J;
      NotBefore(u, k - 1);
    } else {
      assert I == {};
    }
  }

  /** What is taken out are as many ranges as overlap. */
  lemma PartedHits(u: seq<Node>, w: seq<Node>, v: seq<Node>, b: int, t: int)
    requires Parted(u, w, v, b, t) && Sorted(u) && Sorted(v)
    ensures |v| == |set i: nat | i < |u| && u[i].bot <= t && b <= u[i].top|
  {
    ElemsCount(v);
    HitsElems(u, b, t, |u|);
    HitsAre(u, b, t, |u|);
    assert u[..|u|] == u;
    forall n
      ensures n in Elems(v) <==> n in u && Overlaps(n, b, t)
    {
      assert n in Elems(u) <==> n in Elems(w) || n in Elems(v);
    }
    assert Elems(v) == set n | n in u && Overlaps(n, b, t);
  }

  lemma FoundIs(st: Store, t: Tree, p: Path, h: int, x: int)
    requires Standing(st, ROOT, t) && PlaceFor(t, p, x) && h == LinkOf(ROOT, t, p)
    ensures 0 <= h < |st.links| && (st.links[h] != NULL <==> Covers(InOrder(t), x))
  {
    hide InOrder, Before, After, Sub, IsPath, Sorted, Distinct;
    HarvestLink(st, t, p);
    ReplaceOrder(t, p, Leaf);
    var a, c, b := Before(t, p), Sub(t, p), After(t, p);
    CoversJoin(a + InOrder(c), b, x);
    CoversJoin(a, InOrder(c), x);
    if c.Fork? {
      RootIn(c);
      assert Covers(InOrder(c), x);
    } else {
      LeafOrder();
    }
    UnderCovers(a, x);
    OverCovers(b, x);
  }

  lemma HarvestLink(st: Store, t: Tree, p: Path)
    requires Standing(st, ROOT, t) && IsPath(t, p)
    ensures var h := LinkOf(ROOT, t, p); 0 <= h < |st.links| && (st.links[h] == NULL <==> Sub(t, p).Leaf?)
  {
    SubStands(st, ROOT, t, p);
    Family(st, LinkOf(ROOT, t, p), Sub(t, p));
  }

  lemma UnderCovers(s: seq<Node>, x: int)
    requires Under(s, x)
    ensures !Covers(s, x)
  {
  }

  lemma OverCovers(s: seq<Node>, x: int)
    requires Over(s, x)
    ensures !Covers(s, x)
  {
  }

  /** No range contains address 0, so going on from there gives the first one. */
  lemma FromZero(s: seq<Node>)
    requires Sorted(s) && Addresses(s)
    ensures FirstAbove(s, 0, 0) == 0
  {
    if s != [] {
      assert s[0].bot <= s[0].bot <= s[0].top && Covers(s, s[0].bot);
    }
  }

  lemma UpTo(s: seq<Node>, k: nat)
    requires Sorted(s) && k < |s|
    ensures s[k].bot <= s[k].top && NoneAbove(s[..k + 1], s[k].bot)
  {
    forall i | 0 <= i <= k
      ensures s[i].bot <= s[k].bot
    {
      assert i < k ==> s[i].top < s[k].bot;
    }
  }

  lemma From(s: seq<Node>, k: nat)
    requires Sorted(s) && k < |s|
    ensures Over(s[k + 1..], s[k].bot)
  {
    forall i | k < i < |s|
      ensures s[k].bot < s[i].bot
    {
      assert s[k].top < s[i].bot;
    }
  }

  /** After range k the iteration goes on with range k + 1. */
  lemma NextAbove(s: seq<Node>, k: nat)
    requires Sorted(s) && k < |s|
    ensures s[k].bot <= s[k].top && FirstAbove(s, s[k].bot, 0) == k + 1
  {
    hide Sorted, NoneAbove, Over, FirstAbove;
    UpTo(s, k);
    From(s, k);
    assert s == s[..k + 1] + s[k + 1..];
    FirstAboveIs(s[..k + 1], s[k + 1..], s[k].bot, 0);
  }

  /** Behind a range that starts above t none overlaps any more. */
  lemma {:induction false} HitsEnd(s: seq<Node>, b: int, t: int, k: nat)
    requires Sorted(s) && k < |s| && t < s[k].bot
    ensures Hits(s, b, t, |s|) == Hits(s, b, t, k)
  {
    HitsFrom(s, b, t, k, |s|);
  }

  lemma {:induction false} HitsFrom(s: seq<Node>, b: int, t: int, k: nat, m: nat)
    requires Sorted(s) && k < |s| && t < s[k].bot && k <= m <= |s|
    ensures Hits(s, b, t, m) == Hits(s, b, t, k)
    decreases m
  {
    if m > k {
      HitsFrom(s, b, t, k, m - 1);
      assert s[k].bot <= s[k].top;
      assert k < m - 1 ==> s[k].top < s[m - 1].bot;
    }
  }

  ghost function Pairs(s: seq<Node>): seq<(int, int)> {
    seq(|s|, i requires 0 <= i < |s| => (s[i].bot, s[i].top))
  }

  lemma DumpSplits(c: Tree)
    ensures c.Leaf? ==> Pairs(InOrder(c)) == []
    ensures c.Fork? ==>
      Pairs(InOrder(c)) == Pairs(InOrder(c.prv)) + [(c.node.bot, c.node.top)] + Pairs(InOrder(c.nxt))
  {
  }

  // Dumping and reading again ---------------------------------------------------------------------------

  ghost predicate Listed(ranges: seq<(int, int)>, x: int) {
    exists i {:trigger ranges[i]} :: 0 <= i < |ranges| && ranges[i].0 <= x <= ranges[i].1
  }

  lemma EmptyCovers()
    ensures InOrder(Leaf) == [] && forall x :: !Covers([], x) && !Listed([], x)
  {
  }

  lemma ListedMore(ranges: seq<(int, int)>, r: (int, int), x: int)
    ensures Listed(ranges + [r], x) <==> Listed(ranges, x) || r.0 <= x <= r.1
  {
    var s := ranges + [r];
    assert s[|ranges|] == r;
    if Listed(ranges, x) {
      var i :| 0 <= i < |ranges| && ranges[i].0 <= x <= ranges[i].1;
      assert s[i] == ranges[i];
    }
  }

  /** Every range of s was written, and once. */
  ghost predicate Dumped(s: seq<Node>, out: seq<(int, int)>) {
    multiset(out) == multiset(Pairs(s))
  }

  lemma DumpedIs(s: seq<Node>, out: seq<(int, int)>, i: nat) returns (k: nat)
    requires Dumped(s, out) && i < |out|
    ensures k < |s| && out[i] == (s[k].bot, s[k].top)
  {
    assert out[i] in multiset(out);
    assert out[i] in Pairs(s);
    k :| 0 <= k < |Pairs(s)| && Pairs(s)[k] == out[i];
  }

  lemma DumpedHas(s: seq<Node>, out: seq<(int, int)>, k: nat) returns (i: nat)
    requires Dumped(s, out) && k < |s|
    ensures i < |out| && out[i] == (s[k].bot, s[k].top)
  {
    assert Pairs(s)[k] in multiset(Pairs(s));
    assert Pairs(s)[k] in out;
    i :| 0 <= i < |out| && out[i] == Pairs(s)[k];
  }

  lemma DumpBounds(s: seq<Node>, out: seq<(int, int)>)
    requires Sorted(s) && Addresses(s) && Dumped(s, out)
    ensures forall i :: 0 <= i < |out| ==> 0 < out[i].0 <= out[i].1 < UINT_MAX
  {
    hide Dumped;
    forall i | 0 <= i < |out|
      ensures 0 < out[i].0 <= out[i].1 < UINT_MAX
    {
      var k := DumpedIs(s, out, i);
      assert s[k].bot <= s[k].top;
      assert Covers(s, s[k].bot) && Covers(s, s[k].top);
    }
  }

  lemma DumpCovers(s: seq<Node>, out: seq<(int, int)>, x: int)
    requires Dumped(s, out)
    ensures Listed(out, x) <==> Covers(s, x)
  {
    hide Dumped;
    if Listed(out, x) {
      var i :| 0 <= i < |out| && out[i].0 <= x <= out[i].1;
      var k := DumpedIs(s, out, i);
    }
    if Covers(s, x) {
      var k :| 0 <= k < |s| && s[k].bot <= x <= s[k].top;
      var i := DumpedHas(s, out, k);
    }
  }

  ghost predicate SameRanges(a: seq<Node>, b: seq<Node>) {
    && |a| == |b|
    && forall i {:trigger a[i]} {:trigger b[i]} :: 0 <= i < |a| ==> a[i].bot == b[i].bot && a[i].top == b[i].top
  }

  lemma SameRangesCover(a: seq<Node>, b: seq<Node>, x: int)
    requires SameRanges(a, b)
    ensures Covers(a, x) <==> Covers(b, x)
  {
    if Covers(a, x) {
      var i :| 0 <= i < |a| && a[i].bot <= x <= a[i].top;
      assert b[i].bot <= x <= b[i].top;
    }
    if Covers(b, x) {
      var i :| 0 <= i < |b| && b[i].bot <= x <= b[i].top;
      assert a[i].bot <= x <= a[i].top;
    }
  }

  /** Each stored range is a maximal run of banned addresses. */
  lemma MaximalRuns(s: seq<Node>, i: nat)
    requires Sorted(s) && Separated(s) && i < |s|
    ensures forall x :: s[i].bot <= x <= s[i].top ==> Covers(s, x)
    ensures !Covers(s, s[i].bot - 1) && !Covers(s, s[i].top + 1)
  {
    forall k | 0 <= k < |s|
      ensures !(s[k].bot <= s[i].bot - 1 <= s[k].top) && !(s[k].bot <= s[i].top + 1 <= s[k].top)
    {
      assert s[k].bot <= s[k].top && s[i].bot <= s[i].top;
      assert k < i ==> s[k].top + 1 < s[i].bot;
      assert i < k ==> s[i].top + 1 < s[k].bot;
    }
  }

  /** A set of addresses can be stored in one way only. */
  lemma {:induction false} SameCoverSameRanges(a: seq<Node>, b: seq<Node>)
    requires Sorted(a) && Separated(a) && Sorted(b) && Separated(b)
    requires forall x {:trigger Covers(a, x)} {:trigger Covers(b, x)} :: Covers(a, x) <==> Covers(b, x)
    ensures SameRanges(a, b)
    decreases |a| + |b|
  {
    if a != [] && b != [] {
      FirstRun(a, b);
      FirstRun(b, a);
      forall x
        ensures Covers(a[1..], x) <==> Covers(b[1..], x)
      {
        LaterRuns(a, x);
        LaterRuns(b, x);
      }
      SeparatedTail(a);
      SeparatedTail(b);
      SameCoverSameRanges(a[1..], b[1..]);
      SameRangesCons(a, b);
    } else if a != [] {
      CoversFirst(a);
    } else if b != [] {
      CoversFirst(b);
    }
  }

  lemma CoversFirst(a: seq<Node>)
    requires Sorted(a) && a != []
    ensures Covers(a, a[0].bot)
  {
  }

  lemma FirstRun(a: seq<Node>, b: seq<Node>)
    requires Sorted(a) && Separated(a) && Sorted(b) && Separated(b) && a != [] && b != []
    requires forall x {:trigger Covers(a, x)} :: Covers(a, x) <==> Covers(b, x)
    ensures b[0].bot <= a[0].bot && (b[0].bot == a[0].bot ==> a[0].top <= b[0].top)
  {
    MaximalRuns(a, 0);
    MaximalRuns(b, 0);
    assert a[0].bot <= a[0].top && b[0].bot <= b[0].top;
    assert Covers(a, a[0].bot);
    assert Covers(b, a[0].bot);
    var k :| 0 <= k < |b| && b[k].bot <= a[0].bot <= b[k].top;
    assert k > 0 ==> b[0].top < b[k].bot;
    assert Covers(a, b[0].top + 1) <==> Covers(b, b[0].top + 1);
  }

  lemma LaterRuns(a: seq<Node>, x: int)
    requires Sorted(a) && a != []
    ensures Covers(a[1..], x) <==> Covers(a, x) && x > a[0].top
  {
    assert a == [a[0]] + a[1..];
    CoversJoin([a[0]], a[1..], x);
    CoversOne(a[0], x);
    if Covers(a[1..], x) {
      var i :| 0 <= i < |a[1..]| && a[1..][i].bot <= x <= a[1..][i].top;
      assert a[0].top < a[i + 1].bot;
    }
  }

  lemma SeparatedTail(a: seq<Node>)
    requires Sorted(a) && Separated(a) && a != []
    ensures Sorted(a[1..]) && Separated(a[1..])
  {
    SortedTail(a);
    var s := a[1..];
    forall i, j | 0 <= i < j < |s|
      ensures s[i].top + 1 < s[j].bot
    {
      assert a[i + 1].top + 1 < a[j + 1].bot;
    }
  }

  lemma SameRangesCons(a: seq<Node>, b: seq<Node>)
    requires a != [] && b != [] && SameRanges(a[1..], b[1..]) && a[0].bot == b[0].bot && a[0].top == b[0].top
    ensures SameRanges(a, b)
  {
    forall i | 0 <= i < |a|
      ensures a[i].bot == b[i].bot && a[i].top == b[i].top
    {
      assert i > 0 ==> a[i] == a[1..][i - 1] && b[i] == b[1..][i - 1];
    }
  }
}
