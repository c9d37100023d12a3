/** The shape of the tree of banned ranges, apart from pointers: what is stored,
    in which order, and where in the tree. */
module BanTree {
  /** A stored range, both ends inclusive, with the number of its node. */
  datatype Node = Node(id: nat, bot: int, top: int)

  /** prv holds the smaller ranges, nxt the larger ones. */
  datatype Tree = Leaf | Fork(prv: Tree, node: Node, nxt: Tree)

  function InOrder(t: Tree): (r: seq<Node>)
    ensures |r| == 0 <==> t.Leaf?
  {
    if t.Leaf? then [] else InOrder(t.prv) + [t.node] + InOrder(t.nxt)
  }

  function Size(t: Tree): nat {
    if t.Leaf? then 0 else Size(t.prv) + 1 + Size(t.nxt)
  }

  ghost function Ids(t: Tree): set<nat> {
    if t.Leaf? then {} else Ids(t.prv) + {t.node.id} + Ids(t.nxt)
  }

  /** No node occurs twice. */
  ghost predicate Distinct(t: Tree) {
    t.Fork? ==>
      && Distinct(t.prv) && Distinct(t.nxt)
      && t.node.id !in Ids(t.prv) && t.node.id !in Ids(t.nxt) && Ids(t.prv) !! Ids(t.nxt)
  }

  /** Every range is smaller than val. */
  ghost predicate Under(s: seq<Node>, val: int) {
    forall i {:trigger s[i]} :: 0 <= i < |s| ==> s[i].top < val
  }

  /** Every range is larger than val. */
  ghost predicate Over(s: seq<Node>, val: int) {
    forall i {:trigger s[i]} :: 0 <= i < |s| ==> val < s[i].bot
  }

  /** The ranges are not empty, disjoint, and in increasing order. */
  ghost predicate Sorted(s: seq<Node>) {
    && (forall i {:trigger s[i]} :: 0 <= i < |s| ==> s[i].bot <= s[i].top)
    && (forall i, j {:trigger s[i], s[j]} :: 0 <= i < j < |s| ==> s[i].top < s[j].bot)
  }

  lemma SortedParts(a: seq<Node>, n: Node, b: seq<Node>)
    requires Sorted(a + [n] + b)
    ensures Sorted(a) && Sorted(b) && n.bot <= n.top && Under(a, n.bot) && Over(b, n.top)
  {
    var s := a + [n] + b;
    assert s[|a|] == n;
    assert forall i :: 0 <= i < |a| ==> s[i] == a[i];
    assert forall i :: 0 <= i < |b| ==> s[|a| + 1 + i] == b[i];
  }

  lemma {:induction false} SizeIs(t: Tree)
    ensures |InOrder(t)| == Size(t)
  {
    if t.Fork? {
      SizeIs(t.prv);
      SizeIs(t.nxt);
    }
  }

  ghost predicate HasId(s: seq<Node>, i: nat) {
    exists k {:trigger s[k]} :: 0 <= k < |s| && s[k].id == i
  }

  lemma HasIdPart(a: seq<Node>, n: Node, b: seq<Node>, i: nat)
    ensures HasId(a + [n] + b, i) <==> HasId(a, i) || n.id == i || HasId(b, i)
  {
    var s := a + [n] + b;
    assert s[|a|] == n;
    assert forall k :: 0 <= k < |a| ==> s[k] == a[k];
    assert forall k :: 0 <= k < |b| ==> s[|a| + 1 + k] == b[k];
    if HasId(s, i) {
      var k :| 0 <= k < |s| && s[k].id == i;
      assert k > |a| ==> s[k] == b[k - |a| - 1];
    }
  }

  lemma {:induction false} IdsAre(t: Tree, i: nat)
    ensures i in Ids(t) <==> HasId(InOrder(t), i)
  {
    if t.Fork? {
      IdsAre(t.prv, i);
      IdsAre(t.nxt, i);
      HasIdPart(InOrder(t.prv), t.node, InOrder(t.nxt), i);
    }
  }

  lemma SameOrderSameIds(t: Tree, t': Tree)
    requires InOrder(t) == InOrder(t')
    ensures Ids(t) == Ids(t') && Size(t) == Size(t')
  {
    forall i: nat
      ensures i in Ids(t) <==> i in Ids(t')
    {
      IdsAre(t, i);
      IdsAre(t', i);
    }
    SizeIs(t);
    SizeIs(t');
  }

  // Places in a tree ------------------------------------------------------------------------

  /** A way down from the root: false for prv, true for nxt. */
  type Path = seq<bool>

  function Kid(t: Tree, d: bool): Tree
    requires t.Fork?
  {
    if d then t.nxt else t.prv
  }

  function WithKid(t: Tree, d: bool, k: Tree): Tree
    requires t.Fork?
  {
    if d then t.(nxt := k) else t.(prv := k)
  }

  ghost predicate IsPath(t: Tree, p: Path) {
    p == [] || (t.Fork? && IsPath(Kid(t, p[0]), p[1..]))
  }

  ghost function Sub(t: Tree, p: Path): Tree
    requires IsPath(t, p)
  {
    if p == [] then t else Sub(Kid(t, p[0]), p[1..])
  }

  ghost function Replace(t: Tree, p: Path, s: Tree): Tree
    requires IsPath(t, p)
  {
    if p == [] then s else WithKid(t, p[0], Replace(Kid(t, p[0]), p[1..], s))
  }

  /** What comes before the place p, and what comes after it. */
  ghost function Before(t: Tree, p: Path): seq<Node>
    requires IsPath(t, p)
  {
    if p == [] then []
    else if p[0] then InOrder(t.prv) + [t.node] + Before(t.nxt, p[1..])
    else Before(t.prv, p[1..])
  }

  ghost function After(t: Tree, p: Path): seq<Node>
    requires IsPath(t, p)
  {
    if p == [] then []
    else if p[0] then After(t.nxt, p[1..])
    else After(t.prv, p[1..]) + [t.node] + InOrder(t.nxt)
  }

  lemma ReplaceOrder(t: Tree, p: Path, s: Tree)
    requires IsPath(t, p)
    ensures InOrder(Replace(t, p, s)) == Before(t, p) + InOrder(s) + After(t, p)
    ensures InOrder(t) == Before(t, p) + InOrder(Sub(t, p)) + After(t, p)
  {
    hide InOrder, Before, After, Replace, Sub;
    ReplacedOrder(t, p, s);
    SubOrder(t, p);
  }

  lemma {:induction false} ReplacedOrder(t: Tree, p: Path, s: Tree)
    requires IsPath(t, p)
    ensures InOrder(Replace(t, p, s)) == Before(t, p) + InOrder(s) + After(t, p)
    decreases |p|
  {
    if p != [] {
      ReplacedOrder(Kid(t, p[0]), p[1..], s);
      OrderUp(t, p, InOrder(s), InOrder(Replace(Kid(t, p[0]), p[1..], s)));
    }
  }

  lemma {:induction false} SubOrder(t: Tree, p: Path)
    requires IsPath(t, p)
    ensures InOrder(t) == Before(t, p) + InOrder(Sub(t, p)) + After(t, p)
    decreases |p|
  {
    if p != [] {
      SubOrder(Kid(t, p[0]), p[1..]);
      OrderUp(t, p, InOrder(Sub(t, p)), InOrder(Kid(t, p[0])));
    }
  }

  /** What lies before and after the end of a path, one step up. */
  lemma OrderUp(t: Tree, p: Path, m: seq<Node>, r: seq<Node>)
    requires p != [] && IsPath(t, p) && r == Before(Kid(t, p[0]), p[1..]) + m + After(Kid(t, p[0]), p[1..])
    ensures Before(t, p) + m + After(t, p) ==
      if p[0] then InOrder(t.prv) + [t.node] + r else r + [t.node] + InOrder(t.nxt)
  {
    hide InOrder;
    var k := Kid(t, p[0]);
    if p[0] {
      Regroup(InOrder(t.prv) + [t.node], Before(k, p[1..]), m, After(k, p[1..]), r);
    } else {
      Regroup2(Before(k, p[1..]), m, After(k, p[1..]), [t.node] + InOrder(t.nxt), r);
      assert r + [t.node] + InOrder(t.nxt) == r + ([t.node] + InOrder(t.nxt));
      assert After(k, p[1..]) + [t.node] + InOrder(t.nxt) == After(k, p[1..]) + ([t.node] + InOrder(t.nxt));
    }
  }

  lemma Regroup<T>(a: seq<T>, b: seq<T>, c: seq<T>, d: seq<T>, m: seq<T>)
    requires m == b + c + d
    ensures a + m == (a + b) + c + d
  {
  }

  lemma Regroup2<T>(b: seq<T>, c: seq<T>, d: seq<T>, e: seq<T>, m: seq<T>)
    requires m == b + c + d
    ensures m + e == b + c + (d + e)
  {
  }

  lemma {:induction false} ReplaceIds(t: Tree, p: Path, s: Tree)
    requires IsPath(t, p) && Distinct(t) && Distinct(s) && Ids(s) !! Ids(t) - Ids(Sub(t, p))
    ensures Ids(Sub(t, p)) <= Ids(t) && Distinct(Sub(t, p))
    ensures Distinct(Replace(t, p, s)) && Ids(Replace(t, p, s)) == Ids(t) - Ids(Sub(t, p)) + Ids(s)
    decreases |p|
  {
    if p != [] {
      SubIds(Kid(t, p[0]), p[1..]);
      ReplaceIds(Kid(t, p[0]), p[1..], s);
    }
  }

  lemma {:induction false} SubIds(t: Tree, p: Path)
    requires IsPath(t, p)
    ensures Ids(Sub(t, p)) <= Ids(t)
    ensures Distinct(t) ==> Distinct(Sub(t, p))
    decreases |p|
  {
    if p != [] {
      SubIds(Kid(t, p[0]), p[1..]);
    }
  }

  /** One step further down. */
  lemma {:induction false} PathDown(t: Tree, p: Path, d: bool)
    requires IsPath(t, p) && Sub(t, p).Fork?
    ensures IsPath(t, p + [d]) && Sub(t, p + [d]) == Kid(Sub(t, p), d)
    ensures Before(t, p + [d]) == Before(t, p) + if d then InOrder(Sub(t, p).prv) + [Sub(t, p).node] else []
    ensures After(t, p + [d]) == (if d then [] else [Sub(t, p).node] + InOrder(Sub(t, p).nxt)) + After(t, p)
    decreases |p|
  {
    if p == [] {
      assert [d][1..] == [];
    } else {
      assert (p + [d])[1..] == p[1..] + [d];
      PathDown(Kid(t, p[0]), p[1..], d);
    }
  }

  lemma {:induction false} ReplacePath(t: Tree, p: Path, s: Tree)
    requires IsPath(t, p)
    ensures IsPath(Replace(t, p, s), p) && Sub(Replace(t, p, s), p) == s
    ensures Before(Replace(t, p, s), p) == Before(t, p) && After(Replace(t, p, s), p) == After(t, p)
    ensures forall u :: Replace(Replace(t, p, s), p, u) == Replace(t, p, u)
    decreases |p|
  {
    if p != [] {
      ReplacePath(Kid(t, p[0]), p[1..], s);
    }
  }

  // Shapes that rotations keep -----------------------------------------------------------------

  predicate TwoKids(t: Tree) {
    t.Fork? && t.prv.Fork? && t.nxt.Fork?
  }

  predicate Lone(t: Tree) {
    t.Fork? && t.prv.Leaf? && t.nxt.Leaf?
  }

  /** The smallest node is a leaf, and the only child of its parent. */
  predicate LowPair(t: Tree) {
    t.Fork? && t.prv.Fork? && if t.prv.prv.Leaf? then t.prv.nxt.Leaf? && t.nxt.Leaf? else LowPair(t.prv)
  }

  /** The same for the largest node. */
  predicate HighPair(t: Tree) {
    t.Fork? && t.nxt.Fork? && if t.nxt.nxt.Leaf? then t.nxt.prv.Leaf? && t.prv.Leaf? else HighPair(t.nxt)
  }

  /** Children of the root that were there still are, and with two children a
      pair at one end stays when something is looked up at the other end. */
  ghost predicate ShapeKept(t: Tree, t': Tree, val: int) {
    && (t.Fork? <==> t'.Fork?)
    && (t.Fork? ==> (t.prv.Fork? ==> t'.prv.Fork?) && (t.nxt.Fork? ==> t'.nxt.Fork?))
    && (TwoKids(t) && LowPair(t) && Under(InOrder(t), val) ==> LowPair(t'))
    && (TwoKids(t) && HighPair(t) && Over(InOrder(t), val) ==> HighPair(t'))
  }

  lemma {:induction false} DeepReplaceShape(t: Tree, p: Path, s: Tree, val: int)
    requires IsPath(t, p) && p != [] && Sub(t, p).Fork? && s.Fork?
    requires Under(InOrder(t), val) ==> After(t, p) == []
    requires Over(InOrder(t), val) ==> Before(t, p) == []
    ensures ShapeKept(t, Replace(t, p, s), val)
  {
    assert p[0] ==> Before(t, p) != [];
    assert !p[0] ==> After(t, p) != [];
    KidStays(Kid(t, p[0]), p[1..], s);
  }

  lemma {:induction false} KidStays(t: Tree, p: Path, s: Tree)
    requires IsPath(t, p) && Sub(t, p).Fork? && s.Fork?
    ensures t.Fork? && Replace(t, p, s).Fork?
    decreases |p|
  {
    if p != [] {
      KidStays(Kid(t, p[0]), p[1..], s);
    }
  }
}
