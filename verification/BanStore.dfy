/** The memory that the tree of banned ranges lives in. A link is a place that
    holds a node number: some variables, and two links for every node. Each
    node also remembers the link that holds it. */
module BanStore {
  import opened BanTree

  const NULL := 0

  /** The variables that hold a tree: the ban list itself, the tree gathered by
      a harvest, and its copy in the caller. */
  const ROOT := 1
  const YIELD := 2
  const COPY := 3

  /** The number of the first node. */
  const FIRST_NODE := 2

  datatype Store = Store(links: seq<int>, hnd: seq<int>, bot: seq<int>, top: seq<int>)

  ghost predicate Shaped(st: Store) {
    |st.links| == 2 * |st.hnd| && |st.hnd| == |st.bot| == |st.top| >= FIRST_NODE
  }

  /** The link to the smaller, or larger, child of a node. */
  function LinkTo(i: int, d: bool): int {
    2 * i + if d then 1 else 0
  }

  function RootId(t: Tree): int {
    if t.Leaf? then NULL else t.node.id
  }

  ghost predicate NodeAt(st: Store, at: int, n: Node)
    requires Shaped(st)
  {
    FIRST_NODE <= n.id < |st.hnd| && st.hnd[n.id] == at && st.bot[n.id] == n.bot && st.top[n.id] == n.top
  }

  /** Link at holds the tree t, and the nodes of t know the links that hold them. */
  ghost predicate Holds(st: Store, at: int, t: Tree)
    requires Shaped(st)
    decreases t
  {
    && 0 <= at < |st.links| && st.links[at] == RootId(t)
    && (t.Fork? ==>
      && NodeAt(st, at, t.node)
      && Holds(st, LinkTo(t.node.id, false), t.prv)
      && Holds(st, LinkTo(t.node.id, true), t.nxt))
  }

  /** Link at is not a link of a node of t. */
  ghost predicate Outside(at: int, t: Tree) {
    at / 2 !in Ids(t)
  }

  /** A node of t, or link at. */
  ghost predicate InPart(at: int, ids: set<nat>, x: int) {
    x == at || x / 2 in ids
  }

  /** Only link at and the nodes with these numbers changed. */
  ghost predicate Changed(st: Store, st': Store, at: int, ids: set<nat>)
    requires Shaped(st)
  {
    && Shaped(st') && |st'.hnd| == |st.hnd| && st'.bot == st.bot && st'.top == st.top
    && (forall x {:trigger st'.links[x]} :: 0 <= x < |st.links| && !InPart(at, ids, x) ==> st'.links[x] == st.links[x])
    && (forall i: nat {:trigger st'.hnd[i]} :: i < |st.hnd| && i !in ids ==> st'.hnd[i] == st.hnd[i])
  }

  lemma ChangedTrans(st: Store, st': Store, st'': Store, at: int, ids: set<nat>)
    requires Shaped(st) && Changed(st, st', at, ids) && Changed(st', st'', at, ids)
    ensures Changed(st, st'', at, ids)
  {
  }

  lemma ChangedMore(st: Store, st': Store, at: int, ids: set<nat>, at': int, ids': set<nat>)
    requires Shaped(st) && Changed(st, st', at, ids) && ids <= ids' && (at == at' || at / 2 in ids')
    ensures Changed(st, st', at', ids')
  {
  }

  /** A tree stays if its link and its nodes do. */
  lemma {:induction false} HoldsSame(st: Store, st': Store, from: int, t: Tree)
    requires Shaped(st) && Shaped(st') && |st'.hnd| == |st.hnd| && st'.bot == st.bot && st'.top == st.top
    requires Holds(st, from, t) && st'.links[from] == st.links[from]
    requires forall x {:trigger st'.links[x]} :: 0 <= x < |st.links| && x / 2 in Ids(t) ==> st'.links[x] == st.links[x]
    requires forall i {:trigger st'.hnd[i]} :: 0 <= i < |st.hnd| && i in Ids(t) ==> st'.hnd[i] == st.hnd[i]
    ensures Holds(st', from, t)
    decreases t
  {
    if t.Fork? {
      HoldsSame(st, st', LinkTo(t.node.id, false), t.prv);
      HoldsSame(st, st', LinkTo(t.node.id, true), t.nxt);
    }
  }

  /** A tree elsewhere is not concerned. */
  lemma {:induction false} HoldsKept(st: Store, st': Store, at: int, ids: set<nat>, from: int, t: Tree)
    requires Shaped(st) && Changed(st, st', at, ids) && Holds(st, from, t)
    requires Ids(t) !! ids && from != at && from / 2 !in ids && at / 2 !in Ids(t)
    ensures Holds(st', from, t)
    decreases t
  {
    if t.Fork? {
      HoldsKept(st, st', at, ids, LinkTo(t.node.id, false), t.prv);
      HoldsKept(st, st', at, ids, LinkTo(t.node.id, true), t.nxt);
    }
  }

  /** The link at the end of a path. */
  ghost function LinkOf(at: int, t: Tree, p: Path): int
    requires IsPath(t, p)
    decreases |p|
  {
    if p == [] then at else LinkOf(LinkTo(t.node.id, p[0]), Kid(t, p[0]), p[1..])
  }

  lemma {:induction false} LinkInside(at: int, t: Tree, p: Path)
    requires IsPath(t, p)
    ensures p == [] ==> LinkOf(at, t, p) == at
    ensures p != [] ==> LinkOf(at, t, p) / 2 in Ids(t) - Ids(Sub(t, p)) || !Distinct(t)
    decreases |p|
  {
    if p != [] {
      SubIds(Kid(t, p[0]), p[1..]);
      LinkInside(LinkTo(t.node.id, p[0]), Kid(t, p[0]), p[1..]);
    }
  }

  lemma {:induction false} LinkDown(at: int, t: Tree, p: Path, d: bool)
    requires IsPath(t, p) && Sub(t, p).Fork?
    ensures IsPath(t, p + [d]) && LinkOf(at, t, p + [d]) == LinkTo(Sub(t, p).node.id, d)
    decreases |p|
  {
    PathDown(t, p, d);
    if p == [] {
      assert [d][1..] == [];
    } else {
      assert (p + [d])[1..] == p[1..] + [d];
      LinkDown(LinkTo(t.node.id, p[0]), Kid(t, p[0]), p[1..], d);
    }
  }

  lemma {:induction false} LinkReplace(at: int, t: Tree, p: Path, s: Tree)
    requires IsPath(t, p)
    ensures IsPath(Replace(t, p, s), p) && LinkOf(at, Replace(t, p, s), p) == LinkOf(at, t, p)
    decreases |p|
  {
    ReplacePath(t, p, s);
    if p != [] {
      LinkReplace(LinkTo(t.node.id, p[0]), Kid(t, p[0]), p[1..], s);
    }
  }

  /** A tree held at the end of a path. */
  lemma {:induction false} HoldsSub(st: Store, at: int, t: Tree, p: Path)
    requires Shaped(st) && Holds(st, at, t) && IsPath(t, p)
    ensures Holds(st, LinkOf(at, t, p), Sub(t, p))
    decreases |p|
  {
    if p != [] {
      HoldsSub(st, LinkTo(t.node.id, p[0]), Kid(t, p[0]), p[1..]);
    }
  }

  lemma LinkKept(st: Store, st': Store, at: int, ids: set<nat>, from: int, i: nat)
    requires Shaped(st) && Changed(st, st', at, ids) && 0 <= from < |st.links| && from != at && from / 2 !in ids
    requires i < |st.hnd| && i !in ids
    ensures Shaped(st') && |st'.links| == |st.links| && st'.links[from] == st.links[from]
    ensures i < |st'.hnd| && st'.hnd[i] == st.hnd[i] && st'.bot[i] == st.bot[i] && st'.top[i] == st.top[i]
  {
    assert !InPart(at, ids, from);
  }

  /** Going one step down a path: what a change at its end leaves alone. */
  lemma StepDown(at: int, t: Tree, p: Path, ids: set<nat>)
    requires p != [] && IsPath(t, p) && Distinct(t) && Outside(at, t)
    requires ids !! Ids(t) - Ids(Sub(t, p)) && at / 2 !in ids
    ensures var d, i := p[0], t.node.id; var k, o, h := Kid(t, d), Kid(t, !d), LinkOf(at, t, p);
            && IsPath(k, p[1..]) && Distinct(k) && Outside(LinkTo(i, d), k) && LinkTo(i, d) / 2 !in ids
            && ids !! Ids(k) - Ids(Sub(k, p[1..])) && Sub(k, p[1..]) == Sub(t, p)
            && h == LinkOf(LinkTo(i, d), k, p[1..])
            && Ids(o) !! ids && LinkTo(i, !d) != h && LinkTo(i, !d) / 2 !in ids && h / 2 !in Ids(o)
            && at != h && i !in ids
  {
    SubIds(Kid(t, p[0]), p[1..]);
    LinkInside(LinkTo(t.node.id, p[0]), Kid(t, p[0]), p[1..]);
  }

  lemma PathEnds(at: int, t: Tree, p: Path, s: Tree)
    requires p == []
    ensures IsPath(t, p) && LinkOf(at, t, p) == at && Replace(t, p, s) == s
  {
  }

  lemma ReplaceStep(t: Tree, p: Path, s: Tree)
    requires p != [] && IsPath(t, p)
    ensures var r, d := Replace(t, p, s), p[0];
            && IsPath(Kid(t, d), p[1..]) && r.Fork? && r.node == t.node
            && Kid(r, d) == Replace(Kid(t, d), p[1..], s) && Kid(r, !d) == Kid(t, !d)
  {
  }

  /** A change at the end of a path changes the whole tree there. */
  lemma {:induction false} HoldsReplace(st: Store, st': Store, at: int, t: Tree, p: Path, s: Tree, ids: set<nat>)
    requires Shaped(st) && Holds(st, at, t) && IsPath(t, p) && Distinct(t) && Outside(at, t)
    requires Changed(st, st', LinkOf(at, t, p), ids) && Holds(st', LinkOf(at, t, p), s)
    requires ids !! Ids(t) - Ids(Sub(t, p)) && at / 2 !in ids
    ensures Holds(st', at, Replace(t, p, s))
    decreases |p|
  {
    hide Changed, Distinct, Outside, Ids, Sub, Replace, LinkOf, LinkTo;
    if p == [] {
      PathEnds(at, t, p, s);
    } else {
      var d, i := p[0], t.node.id;
      var k, o := Kid(t, d), Kid(t, !d);
      StepDown(at, t, p, ids);
      ReplaceStep(t, p, s);
      HoldsReplace(st, st', LinkTo(i, d), k, p[1..], s, ids);
      HoldsKept(st, st', LinkOf(at, t, p), ids, LinkTo(i, !d), o);
      LinkKept(st, st', LinkOf(at, t, p), ids, at, i);
    }
  }

  /** A search tree hangs from link at. */
  ghost predicate Standing(st: Store, at: int, t: Tree) {
    Shaped(st) && Holds(st, at, t) && Distinct(t) && Outside(at, t) && Sorted(InOrder(t)) && 0 < at
  }

  /** A node with its subtrees that hangs from no link yet. */
  ghost predicate Loose(st: Store, s: Tree)
    requires Shaped(st)
  {
    && s.Fork? && Distinct(s) && Sorted(InOrder(s))
    && FIRST_NODE <= s.node.id < |st.hnd| && st.bot[s.node.id] == s.node.bot && st.top[s.node.id] == s.node.top
    && Holds(st, LinkTo(s.node.id, false), s.prv) && Holds(st, LinkTo(s.node.id, true), s.nxt)
  }

  // Cutting and gluing ---------------------------------------------------------------------

  /** node_cut: take the node off the link that holds it. */
  function Cut(st: Store, i: nat): (r: Store)
    requires i < |st.hnd| && 0 <= st.hnd[i] < |st.links|
  {
    var h := st.hnd[i];
    if h != NULL && st.links[h] != NULL then st.(links := st.links[h := NULL], hnd := st.hnd[i := NULL]) else st
  }

  /** node_glue: hang the node, if any, from a link. */
  function Glue(st: Store, h: int, i: nat): (r: Store)
    requires 0 <= h < |st.links| && i < |st.hnd|
  {
    var links := if h != NULL then st.links[h := i] else st.links;
    st.(links := links, hnd := if i != NULL then st.hnd[i := h] else st.hnd)
  }

  lemma {:induction false} HoldsBounds(st: Store, at: int, t: Tree)
    requires Shaped(st) && Holds(st, at, t)
    ensures forall i {:trigger i in Ids(t)} :: i in Ids(t) ==> FIRST_NODE <= i < |st.hnd| && 0 <= st.hnd[i] < |st.links|
    decreases t
  {
    if t.Fork? {
      HoldsBounds(st, LinkTo(t.node.id, false), t.prv);
      HoldsBounds(st, LinkTo(t.node.id, true), t.nxt);
    }
  }

  /** What is left after cutting the root and the child on side d, and gluing
      the child in its place: the child's tree there, the root loose. */
  function Lifted(st: Store, at: int, o: nat, n: nat): (r: Store)
    requires o < |st.hnd| && 0 <= st.hnd[o] < |st.links| && n < |st.hnd| && 0 <= st.hnd[n] < |st.links|
    requires 0 <= at < |st.links|
  {
    Glue(if o == n then Cut(st, o) else Cut(Cut(st, o), n), at, n)
  }

  lemma LiftChild(st: Store, at: int, c: Tree, d: bool)
    requires Standing(st, at, c) && c.Fork? && Kid(c, d).Fork?
    ensures var o, n := c.node.id, Kid(c, d).node.id;
            && o != n && o < |st.hnd| && n < |st.hnd| && st.hnd[o] == at
            && 0 < at < |st.links| && 0 <= st.hnd[n] < |st.links|
    ensures var st' := Lifted(st, at, c.node.id, Kid(c, d).node.id);
            var s := WithKid(c, d, Leaf);
            && Standing(st', at, Kid(c, d)) && Loose(st', s) && Changed(st, st', at, Ids(c))
            && Ids(s) !! Ids(Kid(c, d)) && Ids(s) + Ids(Kid(c, d)) == Ids(c)
            && InOrder(c) == if d then InOrder(s) + InOrder(Kid(c, d)) else InOrder(Kid(c, d)) + InOrder(s)
  {
    hide Ids, Distinct, InOrder, Lifted, Sorted, Changed;
    var o, k, s := c.node.id, Kid(c, d), WithKid(c, d, Leaf);
    var n := k.node.id;
    LiftIds(c, d);
    HoldsBounds(st, at, c);
    var st' := Lifted(st, at, o, n);
    LiftedLinks(st, at, c, d);
    assert Holds(st, LinkTo(o, d), k) && Holds(st, LinkTo(o, !d), Kid(c, !d));
    LiftHolds(st, st', at, o, n, d, LinkTo(n, false), k.prv);
    LiftHolds(st, st', at, o, n, d, LinkTo(n, true), k.nxt);
    LiftHolds(st, st', at, o, n, d, LinkTo(o, !d), Kid(c, !d));
    LiftOrder(c, d);
    LiftSorted(c, d);
    LiftChanged(st, at, c, d);
  }

  lemma LiftChanged(st: Store, at: int, c: Tree, d: bool)
    requires Standing(st, at, c) && c.Fork? && Kid(c, d).Fork?
    requires var o, n := c.node.id, Kid(c, d).node.id;
      o < |st.hnd| && n < |st.hnd| && 0 <= st.hnd[n] < |st.links| && st.hnd[o] == at
    ensures 0 <= at < |st.links| && Changed(st, Lifted(st, at, c.node.id, Kid(c, d).node.id), at, Ids(c))
  {
    hide Lifted, Holds, Sorted, Distinct, InOrder;
    LiftedLinks(st, at, c, d);
    assert LinkTo(c.node.id, d) / 2 == c.node.id;
    assert c.node.id in Ids(c) && Kid(c, d).node.id in Ids(c);
  }

  lemma LiftIds(c: Tree, d: bool)
    requires Distinct(c) && c.Fork? && Kid(c, d).Fork?
    ensures var o, k, s, other := c.node.id, Kid(c, d), WithKid(c, d, Leaf), Kid(c, !d);
            && o in Ids(c) && k.node.id in Ids(c) && o != k.node.id
            && Distinct(k) && Distinct(s) && Ids(s) !! Ids(k) && Ids(s) + Ids(k) == Ids(c)
            && Ids(k) <= Ids(c) && Ids(k.prv) <= Ids(c) && Ids(k.nxt) <= Ids(c) && Ids(other) <= Ids(c)
            && o !in Ids(k.prv) && o !in Ids(k.nxt) && o !in Ids(other)
            && k.node.id !in Ids(k.prv) && k.node.id !in Ids(k.nxt) && k.node.id !in Ids(other)
  {
  }

  lemma LiftSorted(c: Tree, d: bool)
    requires c.Fork? && Sorted(InOrder(c))
    ensures Sorted(InOrder(Kid(c, d))) && Sorted(InOrder(WithKid(c, d, Leaf)))
  {
    LiftOrder(c, d);
    if d {
      SortedHalves(InOrder(WithKid(c, d, Leaf)), InOrder(Kid(c, d)));
    } else {
      SortedHalves(InOrder(Kid(c, d)), InOrder(WithKid(c, d, Leaf)));
    }
  }

  lemma SortedHalves(a: seq<Node>, b: seq<Node>)
    requires Sorted(a + b)
    ensures Sorted(a) && Sorted(b)
  {
    var s := a + b;
    assert forall i :: 0 <= i < |a| ==> s[i] == a[i];
    assert forall i :: 0 <= i < |b| ==> s[|a| + i] == b[i];
  }

  lemma LiftHolds(st: Store, st': Store, at: int, o: nat, n: nat, d: bool, from: int, t: Tree)
    requires Shaped(st) && Holds(st, from, t) && 0 <= at < |st.links|
    requires o < |st.hnd| && n < |st.hnd| && 2 * o + 1 < |st.links|
    requires st' == st.(links := st.links[at := n][LinkTo(o, d) := NULL], hnd := st.hnd[o := NULL][n := at])
    requires o !in Ids(t) && n !in Ids(t) && at / 2 !in Ids(t) && from != at && from != LinkTo(o, d)
    ensures Holds(st', from, t)
  {
    assert LinkTo(o, d) / 2 == o;
    HoldsSame(st, st', from, t);
  }

  lemma LiftedLinks(st: Store, at: int, c: Tree, d: bool)
    requires Standing(st, at, c) && c.Fork? && Kid(c, d).Fork?
    requires var o, n := c.node.id, Kid(c, d).node.id; o < |st.hnd| && n < |st.hnd| && 0 <= st.hnd[n] < |st.links|
    ensures var o, n := c.node.id, Kid(c, d).node.id;
      && o != n && st.hnd[o] == at && 0 < at < |st.links| && 2 * o + 1 < |st.links|
      && Lifted(st, at, o, n) ==
        st.(links := st.links[at := n][LinkTo(o, d) := NULL], hnd := st.hnd[o := NULL][n := at])
  {
    var o, n := c.node.id, Kid(c, d).node.id;
    assert Holds(st, LinkTo(o, d), Kid(c, d));
    assert LinkTo(o, d) != at;
    var st1 := Cut(st, o);
    var st2 := Cut(st1, n);
    assert st2.links[at := n] == st.links[at := n][LinkTo(o, d) := NULL];
  }

  lemma LiftOrder(c: Tree, d: bool)
    requires c.Fork?
    ensures var s := WithKid(c, d, Leaf);
            InOrder(c) == if d then InOrder(s) + InOrder(Kid(c, d)) else InOrder(Kid(c, d)) + InOrder(s)
  {
    var a, b := InOrder(c.prv), InOrder(c.nxt);
    if d {
      assert InOrder(WithKid(c, d, Leaf)) == a + [c.node] + InOrder(Leaf);
      DropEmpty(a + [c.node]);
    } else {
      assert InOrder(WithKid(c, d, Leaf)) == InOrder(Leaf) + [c.node] + b;
      DropEmpty([c.node]);
      Assoc(a, [c.node], b);
    }
  }

  lemma DropEmpty<T>(a: seq<T>)
    ensures a + [] == a && [] + a == a
  {
  }

  lemma Assoc<T>(a: seq<T>, b: seq<T>, c: seq<T>)
    ensures (a + b) + c == a + (b + c)
  {
  }

  // Appending ---------------------------------------------------------------------------------

  ghost predicate Below(n: Node, m: seq<Node>) {
    forall j {:trigger m[j]} :: 0 <= j < |m| ==> n.top < m[j].bot
  }

  ghost predicate Above(n: Node, m: seq<Node>) {
    forall j {:trigger m[j]} :: 0 <= j < |m| ==> m[j].top < n.bot
  }

  /** No range of u lies among or overlaps those of m. */
  ghost predicate Fits(u: seq<Node>, m: seq<Node>) {
    forall i {:trigger u[i]} :: 0 <= i < |u| ==> Below(u[i], m) || Above(u[i], m)
  }

  lemma SortedInsert(a: seq<Node>, m: seq<Node>, b: seq<Node>)
    requires Sorted(a + b) && Sorted(m)
    requires forall i {:trigger a[i]} :: 0 <= i < |a| ==> Below(a[i], m)
    requires forall i {:trigger b[i]} :: 0 <= i < |b| ==> Above(b[i], m)
    ensures Sorted(a + m + b)
  {
    var s, u := a + m + b, a + b;
    assert forall i :: 0 <= i < |a| ==> u[i] == a[i];
    assert forall i :: 0 <= i < |b| ==> u[|a| + i] == b[i];
    forall i, j | 0 <= i < j < |s|
      ensures s[i].top < s[j].bot
    {
      SplitAt(a, m, b, i);
      SplitAt(a, m, b, j);
      if j < |a| {
        assert u[i].top < u[j].bot;
      } else if i >= |a| + |m| {
        assert u[i - |m|].top < u[j - |m|].bot;
      } else if i < |a| && j >= |a| + |m| {
        assert u[i].top < u[j - |m|].bot;
      }
    }
    forall i | 0 <= i < |s|
      ensures s[i].bot <= s[i].top
    {
      SplitAt(a, m, b, i);
      assert i < |a| ==> u[i] == s[i];
      assert i >= |a| + |m| ==> u[i - |m|] == s[i];
    }
  }

  lemma SplitAt(a: seq<Node>, m: seq<Node>, b: seq<Node>, i: int)
    requires 0 <= i < |a| + |m| + |b|
    ensures (a + m + b)[i] == if i < |a| then a[i] else if i < |a| + |m| then m[i - |a|] else b[i - |a| - |m|]
  {
  }

  /** The place for val: everything before is smaller and everything after is
      larger, and either nothing is there or a range that holds val. */
  ghost predicate PlaceFor(t: Tree, p: Path, val: int) {
    && IsPath(t, p) && Under(Before(t, p), val) && Over(After(t, p), val)
    && (Sub(t, p).Fork? ==> Sub(t, p).node.bot <= val <= Sub(t, p).node.top)
  }

  /** The place for the root of s is empty, and all of s fits there. */
  lemma PlaceFits(t: Tree, p: Path, s: Tree)
    requires Sorted(InOrder(t)) && Sorted(InOrder(s)) && s.Fork?
    requires Fits(InOrder(t), InOrder(s)) && PlaceFor(t, p, s.node.bot)
    ensures Sub(t, p).Leaf? && InOrder(t) == Before(t, p) + After(t, p)
    ensures Sorted(Before(t, p) + InOrder(s) + After(t, p))
  {
    hide Before, After, Sub, Replace, IsPath, Sorted, Under, Over, Fits;
    var c := Sub(t, p);
    ReplaceOrder(t, p, Leaf);
    RootIn(s);
    if c.Fork? {
      RootIn(c);
      GapEmpty(Before(t, p), InOrder(c), After(t, p), InOrder(s), |InOrder(c.prv)|, |InOrder(s.prv)|);
    }
    DropEmpty(Before(t, p));
    GapSorted(Before(t, p), After(t, p), InOrder(s), |InOrder(s.prv)|);
  }

  lemma RootIn(t: Tree)
    requires t.Fork?
    ensures |InOrder(t.prv)| < |InOrder(t)| && InOrder(t)[|InOrder(t.prv)|] == t.node
  {
  }

  /** A range that holds the lower end of one of m cannot fit with m. */
  lemma GapEmpty(a: seq<Node>, x: seq<Node>, b: seq<Node>, m: seq<Node>, k: nat, r: nat)
    requires Fits(a + x + b, m) && Sorted(m) && k < |x| && r < |m|
    ensures !(x[k].bot <= m[r].bot <= x[k].top)
  {
    SplitAt(a, x, b, |a| + k);
    var y := (a + x + b)[|a| + k];
    assert Below(y, m) || Above(y, m);
    assert m[r].bot <= m[r].top;
  }

  lemma GapSorted(a: seq<Node>, b: seq<Node>, m: seq<Node>, r: nat)
    requires Fits(a + b, m) && Sorted(a + b) && Sorted(m) && r < |m| && Under(a, m[r].bot) && Over(b, m[r].bot)
    ensures Sorted(a + m + b)
  {
    var u := a + b;
    assert m[r].bot <= m[r].top;
    forall i | 0 <= i < |a|
      ensures Below(a[i], m)
    {
      assert u[i] == a[i];
      assert Below(u[i], m) || Above(u[i], m);
    }
    forall i | 0 <= i < |b|
      ensures Above(b[i], m)
    {
      assert u[|a| + i] == b[i];
      assert Below(u[|a| + i], m) || Above(u[|a| + i], m);
      assert u[|a| + i].bot <= u[|a| + i].top;
    }
    SortedInsert(a, m, b);
  }

  /** Gluing a loose tree at its place. */
  lemma Appended(st: Store, at: int, t: Tree, p: Path, s: Tree)
    requires Standing(st, at, t) && Loose(st, s) && Ids(s) !! Ids(t) && at / 2 !in Ids(s)
    requires PlaceFor(t, p, s.node.bot) && Fits(InOrder(t), InOrder(s))
    ensures 0 <= LinkOf(at, t, p) < |st.links| && s.node.id < |st.hnd|
    ensures var st' := Glue(st, LinkOf(at, t, p), s.node.id); var t' := Replace(t, p, s);
            && Standing(st', at, t') && Changed(st, st', at, Ids(t) + Ids(s))
            && Ids(t') == Ids(t) + Ids(s)
            && InOrder(t') == Before(t, p) + InOrder(s) + After(t, p) && InOrder(t) == Before(t, p) + After(t, p)
  {
    hide Before, After, Fits, Sorted, Sub;
    PlaceFits(t, p, s);
    HoldsSub(st, at, t, p);
    LinkInside(at, t, p);
    var h := LinkOf(at, t, p);
    HoldsBounds(st, at, t);
    var st' := Glue(st, h, s.node.id);
    GlueHolds(st, h, s);
    ReplaceOrder(t, p, s);
    ReplaceIds(t, p, s);
    HoldsReplace(st, st', at, t, p, s, Ids(s));
    ChangedMore(st, st', h, Ids(s), at, Ids(t) + Ids(s));
  }

  lemma GlueHolds(st: Store, h: int, s: Tree)
    requires Shaped(st) && Loose(st, s) && 0 < h < |st.links| && h / 2 !in Ids(s)
    ensures var st' := Glue(st, h, s.node.id); Shaped(st') && Holds(st', h, s) && Changed(st, st', h, Ids(s))
  {
    var i := s.node.id;
    var st' := Glue(st, h, i);
    HoldsSame(st, st', LinkTo(i, false), s.prv);
    HoldsSame(st, st', LinkTo(i, true), s.nxt);
  }

  // What rotations do to the shape -----------------------------------------------------------

  lemma LowPath(t: Tree, p: Path)
    requires IsPath(t, p) && t.Fork? && Sub(t, p).Leaf?
    ensures p != []
    ensures Before(t, p) == [] ==> !p[0]
    ensures After(t, p) == [] ==> p[0]
  {
  }

  /** A place with nothing before it is reached by going to prv all the way. */
  lemma {:induction false} AppendLow(t: Tree, p: Path, s: Tree)
    requires IsPath(t, p) && t.Fork? && Before(t, p) == [] && Sub(t, p).Leaf? && s.Fork?
    ensures p != [] && !p[0]
    ensures var t' := Replace(t, p, s); t'.Fork? && t'.prv.Fork? && t'.nxt == t.nxt
    ensures s.nxt.Leaf? && Lone(s.prv) ==> LowPair(Replace(t, p, s))
    ensures TwoKids(t) && HighPair(t) ==> HighPair(Replace(t, p, s))
    decreases |p|
  {
    LowPath(t, p);
    if t.prv.Fork? {
      AppendLow(t.prv, p[1..], s);
    } else {
      assert p[1..] == [];
    }
  }

  lemma {:induction false} AppendHigh(t: Tree, p: Path, s: Tree)
    requires IsPath(t, p) && t.Fork? && After(t, p) == [] && Sub(t, p).Leaf? && s.Fork?
    ensures p != [] && p[0]
    ensures var t' := Replace(t, p, s); t'.Fork? && t'.nxt.Fork? && t'.prv == t.prv
    ensures s.prv.Leaf? && Lone(s.nxt) ==> HighPair(Replace(t, p, s))
    ensures TwoKids(t) && LowPair(t) ==> LowPair(Replace(t, p, s))
    decreases |p|
  {
    LowPath(t, p);
    if t.nxt.Fork? {
      AppendHigh(t.nxt, p[1..], s);
    } else {
      assert p[1..] == [];
    }
  }

  /** When the root is rotated towards side d: its child there has a child on
      that side too, and the other side is light. */
  ghost predicate Rotates(c: Tree, d: bool) {
    && c.Fork? && Kid(c, d).Fork? && Kid(Kid(c, d), d).Fork?
    && ((Kid(c, !d).Leaf? && Kid(Kid(c, d), !d).Leaf?) || (Lone(Kid(c, !d)) && TwoKids(Kid(c, d))))
  }

  ghost predicate PairAt(t: Tree, high: bool) {
    if high then HighPair(t) else LowPair(t)
  }

  /** After a rotation the root has two children; the light side is light no
      more, and a pair on the other side is kept. */
  ghost predicate Rotated(c: Tree, c': Tree, d: bool) {
    && InOrder(c') == InOrder(c) && TwoKids(c')
    && (c.Fork? && Lone(Kid(c, !d)) ==> PairAt(c', !d))
    && (TwoKids(c) && PairAt(c, d) ==> PairAt(c', d))
  }

  lemma RotateShape(c: Tree, d: bool, t1: Tree, p: Path)
    requires Rotates(c, d) && Sorted(InOrder(c)) && InOrder(t1) == InOrder(Kid(c, d))
    requires ShapeKept(Kid(c, d), t1, c.node.bot) && PlaceFor(t1, p, c.node.bot) && Sub(t1, p).Leaf?
    ensures var c' := Replace(t1, p, WithKid(c, d, Leaf)); InOrder(c') == InOrder(c) ==> Rotated(c, c', d)
  {
    hide InOrder, Sorted;
    var s, k := WithKid(c, d, Leaf), Kid(c, d);
    SortedSides(c);
    LiftSorted(c, d);
    NothingBeyond(t1, p, c.node.bot, d);
    if d {
      AppendLow(t1, p, s);
    } else {
      AppendHigh(t1, p, s);
    }
  }

  ghost predicate SidesApart(c: Tree)
    requires c.Fork?
  {
    Under(InOrder(c.prv), c.node.bot) && Over(InOrder(c.nxt), c.node.bot)
  }

  lemma SortedSides(c: Tree)
    requires c.Fork? && Sorted(InOrder(c))
    ensures SidesApart(c)
  {
    SortedParts(InOrder(c.prv), c.node, InOrder(c.nxt));
  }

  /** If all ranges are larger than val, none comes before its place; and so on. */
  lemma NothingBeyond(t: Tree, p: Path, val: int, larger: bool)
    requires PlaceFor(t, p, val)
    requires if larger then Over(InOrder(t), val) else Under(InOrder(t), val)
    requires Sorted(InOrder(t))
    ensures if larger then Before(t, p) == [] else After(t, p) == []
  {
    hide InOrder, Before, After, Sub;
    ReplaceOrder(t, p, Leaf);
    var a, x, b := Before(t, p), InOrder(Sub(t, p)), After(t, p);
    if larger && a != [] {
      SplitAt(a, x, b, 0);
    }
    if !larger && b != [] {
      SplitAt(a, x, b, |a| + |x|);
    }
  }

  lemma RotateKeeps(c: Tree, c': Tree, d: bool, val: int)
    requires Rotates(c, d) && Rotated(c, c', d)
    ensures ShapeKept(c, c', val)
  {
  }
}
