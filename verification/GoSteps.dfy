/** One lemma for each thing a neighbour of the placed stone can be: the scan
    invariant passes from direction d to direction d + 1. */
module GoSteps {
  import opened GoBoard
  import opened GoRules
  import opened GoForest
  import opened GoScan

  /** Without capture or merger, a step changes at most one root value. */
  lemma StepRoot(b: Board, v: nat, uf: seq<int>, w: Witness, p: int, c: int, root: int, d: nat, r: int, x: int)
    requires Scanning(b, v, uf, w, p, c, root, d) && d < 4
    requires 0 <= r < |b| && IsStone(b[r]) && w.rep[r] == r && x <= 0
    requires r != root ==> x < 0
    requires b[Nbr(v, p, d)] == c ==> w.rep[Nbr(v, p, d)] == root
    requires x == Owed(b, v, w, b[r], r, p, root, d + 1)
    requires forall q, k {:trigger IsRoot(b, w, k, q)} :: IsStone(k) && IsRoot(b, w, k, q) && q != r ==>
      Owed(b, v, w, k, q, p, root, d + 1) == Owed(b, v, w, k, q, p, root, d)
    ensures Scanning(b, v, uf[r := x], w, p, c, root, d + 1)
  {
    TreesOnly(b, uf, b, uf[r := x], v, w, c);
    TreesOnly(b, uf, b, uf[r := x], v, w, Other(c));
    StepRootOwes(b, v, uf, w, p, c, root, d, r, x, c);
    StepRootOwes(b, v, uf, w, p, c, root, d, r, x, Other(c));
  }

  lemma StepRootOwes(b: Board, v: nat, uf: seq<int>, w: Witness, p: int, c: int, root: int, d: nat, r: int, x: int,
      k: int)
    requires Sized(b, uf, w) && d < 4 && OwesBut(b, v, uf, w, k, p, root, d)
    requires 0 <= r < |b| && w.rep[r] == r && (r != root ==> x < 0)
    requires b[r] == k ==> x == Owed(b, v, w, k, r, p, root, d + 1)
    requires forall q {:trigger IsRoot(b, w, k, q)} :: IsRoot(b, w, k, q) && q != r ==>
      Owed(b, v, w, k, q, p, root, d + 1) == Owed(b, v, w, k, q, p, root, d)
    ensures OwesBut(b, v, uf[r := x], w, k, p, root, d + 1)
  {
  }

  lemma StepEdge(b: Board, v: nat, uf: seq<int>, w: Witness, p: int, c: int, root: int, d: nat)
    requires Scanning(b, v, uf, w, p, c, root, d) && d < 4 && b[Nbr(v, p, d)] == EDGE
    ensures Scanning(b, v, uf, w, p, c, root, d + 1)
  {
  }

  lemma StepEmpty(b: Board, v: nat, uf: seq<int>, w: Witness, p: int, c: int, root: int, d: nat)
    requires Scanning(b, v, uf, w, p, c, root, d) && d < 4 && b[Nbr(v, p, d)] == EMPTY
    ensures Scanning(b, v, uf[root := uf[root] - 1], w, p, c, root, d + 1)
  {
    assert IsRoot(b, w, c, root);
    StepRoot(b, v, uf, w, p, c, root, d, root, uf[root] - 1);
  }

  /** A friend of the same group, or an enemy with liberties left, loses one edge. */
  lemma StepDiscount(b: Board, v: nat, uf: seq<int>, w: Witness, p: int, c: int, root: int, d: nat)
    requires Scanning(b, v, uf, w, p, c, root, d) && d < 4
    requires IsStone(b[Nbr(v, p, d)])
    requires var r := w.rep[Nbr(v, p, d)]; if b[Nbr(v, p, d)] == c then r == root else uf[r] != -1
    ensures var r := w.rep[Nbr(v, p, d)]; Scanning(b, v, uf[r := uf[r] + 1], w, p, c, root, d + 1)
  {
    var n := Nbr(v, p, d);
    var r := w.rep[n];
    assert InTree(b, w, b[n], r, n) && IsRoot(b, w, b[n], r);
    if r == root {
      UnseenAtMost(b, v, w, c, p, d + 1);
    }
    StepRoot(b, v, uf, w, p, c, root, d, r, uf[r] + 1);
  }

  // Merging with a friendly group ------------------------------------------------

  /** The forest after linking root l under root r. */
  function Merged(w: Witness, l: int, r: int): (m: Witness)
    requires |w.rep| == |w.rank| && 0 <= r < |w.rank|
    ensures |m.rep| == |w.rep| && |m.rank| == |w.rank|
  {
    Witness(
      seq(|w.rep|, q requires 0 <= q < |w.rep| => if w.rep[q] == l then r else w.rep[q]),
      seq(|w.rep|, q requires 0 <= q < |w.rep| => if w.rep[q] == l then w.rank[q] + w.rank[r] + 1 else w.rank[q]))
  }

  lemma MergedTrees(b: Board, v: nat, uf: seq<int>, w: Witness, c: int, l: int, r: int, x: int)
    requires Trees(b, v, uf, w, c) && IsRoot(b, w, c, l) && IsRoot(b, w, c, r) && l != r && x <= 0
    requires Conn(b, v, l, r) && 0 < r
    ensures Trees(b, v, uf[r := x][l := r], Merged(w, l, r), c)
  {
    var m := Merged(w, l, r);
    var uf' := uf[r := x][l := r];
    forall q | 0 <= q < |b| && b[q] == c
      ensures IsRoot(b, m, c, m.rep[q]) && uf'[m.rep[q]] <= 0 && Conn(b, v, q, m.rep[q])
    {
      assert Conn(b, v, q, w.rep[q]);
      if w.rep[q] == l {
        ConnTrans(b, v, q, l, r);
      }
    }
    forall q | 0 <= q < |b| && b[q] == c
      ensures Linked(b, uf', m, c, q)
    {
      assert Linked(b, uf, w, c, q);
    }
  }

  lemma TreesAgree(b: Board, v: nat, uf: seq<int>, w: Witness, uf': seq<int>, w': Witness, c: int)
    requires Trees(b, v, uf, w, c) && Sized(b, uf', w')
    requires forall q {:trigger uf'[q]} {:trigger w'.rep[q]} :: 0 <= q < |b| && b[q] == c ==>
      uf'[q] == uf[q] && w'.rep[q] == w.rep[q] && w'.rank[q] == w.rank[q]
    ensures Trees(b, v, uf', w', c)
  {
    forall q | 0 <= q < |b| && b[q] == c
      ensures Conn(b, v, q, w'.rep[q])
    {
      assert Conn(b, v, q, w.rep[q]);
    }
    forall q | 0 <= q < |b| && b[q] == c
      ensures Linked(b, uf', w', c, q)
    {
      assert Linked(b, uf, w, c, q);
    }
  }

  lemma MergedOther(b: Board, v: nat, uf: seq<int>, w: Witness, c: int, t: int, l: int, r: int, x: int)
    requires Trees(b, v, uf, w, t) && Sized(b, uf, w) && 0 <= l < |b| && 0 <= r < |b|
    requires b[l] == c && b[r] == c && c != t
    ensures Trees(b, v, uf[r := x][l := r], Merged(w, l, r), t)
  {
    TreesAgree(b, v, uf, w, uf[r := x][l := r], Merged(w, l, r), t);
  }

  lemma MergedEdges(b: Board, v: nat, w: Witness, c: int, l: int, r: int)
    requires |w.rep| == |b| == |w.rank| && 0 <= r < |b| && l != r
    ensures |Edges(b, v, Merged(w, l, r), c, r)| == |Edges(b, v, w, c, l)| + |Edges(b, v, w, c, r)|
    ensures forall q :: q != l && q != r ==> Edges(b, v, Merged(w, l, r), c, q) == Edges(b, v, w, c, q)
  {
    assert Edges(b, v, Merged(w, l, r), c, r) == Edges(b, v, w, c, l) + Edges(b, v, w, c, r);
    assert Edges(b, v, w, c, l) !! Edges(b, v, w, c, r);
  }

  lemma {:induction false} MergedDue(b: Board, v: nat, w: Witness, c: int, l: int, r: int, x: int, d: nat)
    requires |w.rep| == |b| == |w.rank| && 0 <= r < |b| && l != r && d <= 4
    ensures Due(b, v, Merged(w, l, r), c, r, x, d) == Due(b, v, w, c, l, x, d) + Due(b, v, w, c, r, x, d)
    ensures forall q :: q != l && q != r ==> Due(b, v, Merged(w, l, r), c, q, x, d) == Due(b, v, w, c, q, x, d)
    decreases 4 - d
  {
    if d < 4 {
      MergedDue(b, v, w, c, l, r, x, d + 1);
    }
  }

  lemma MergedWhole(b: Board, v: nat, w: Witness, c: int, l: int, r: int, x: int)
    requires |w.rep| == |b| == |w.rank| && 0 <= r < |b| && WholeBut(b, v, w, c, x)
    ensures WholeBut(b, v, Merged(w, l, r), c, x)
  {
  }

  lemma MergeConn(b: Board, v: nat, uf: seq<int>, w: Witness, p: int, n: int, c: int)
    requires Trees(b, v, uf, w, c) && 0 <= p < |b| && 0 <= n < |b| && b[p] == c == b[n] && Adj(v, p, n)
    ensures Conn(b, v, w.rep[p], w.rep[n]) && Conn(b, v, w.rep[n], w.rep[p])
  {
    assert Conn(b, v, p, w.rep[p]) && Conn(b, v, n, w.rep[n]);
    ConnCons(b, v, p, n, w.rep[n]);
    ConnSym(b, v, p, w.rep[p]);
    ConnTrans(b, v, w.rep[p], p, w.rep[n]);
    ConnSym(b, v, w.rep[p], w.rep[n]);
  }

  /** Linking the group of the placed stone and a friendly neighbour's group,
      in either direction, into one that shares the liberties of both. */
  lemma StepMerge(b: Board, v: nat, uf: seq<int>, w: Witness, p: int, c: int, root: int, d: nat, l: int, r: int)
    requires Scanning(b, v, uf, w, p, c, root, d) && d < 4
    requires b[Nbr(v, p, d)] == c && w.rep[Nbr(v, p, d)] != root
    requires var nr := w.rep[Nbr(v, p, d)]; (l == root && r == nr) || (l == nr && r == root)
    ensures Scanning(b, v, uf[r := uf[l] + uf[r] + 1][l := r], Merged(w, l, r), p, c, r, d + 1)
  {
    var n := Nbr(v, p, d);
    assert IsRoot(b, w, c, l) && IsRoot(b, w, c, r) && 2 <= v <= r;
    MergeConn(b, v, uf, w, p, n, c);
    MergedForest(b, v, uf, w, p, c, l, r);
    MergedOwes(b, v, uf, w, c, p, root, d, l, r);
    MergedScanned(b, v, w, p, c, d, l, r);
  }

  lemma MergedForest(b: Board, v: nat, uf: seq<int>, w: Witness, p: int, c: int, l: int, r: int)
    requires IsStone(c) && Trees(b, v, uf, w, c) && Trees(b, v, uf, w, Other(c))
    requires WholeBut(b, v, w, c, p) && WholeBut(b, v, w, Other(c), p)
    requires IsRoot(b, w, c, l) && IsRoot(b, w, c, r) && l != r && 0 < r && Conn(b, v, l, r) && uf[l] + uf[r] + 1 <= 0
    ensures var uf', m := uf[r := uf[l] + uf[r] + 1][l := r], Merged(w, l, r);
            && Trees(b, v, uf', m, c) && Trees(b, v, uf', m, Other(c))
            && WholeBut(b, v, m, c, p) && WholeBut(b, v, m, Other(c), p)
  {
    MergedTrees(b, v, uf, w, c, l, r, uf[l] + uf[r] + 1);
    MergedOther(b, v, uf, w, c, Other(c), l, r, uf[l] + uf[r] + 1);
    MergedWhole(b, v, w, c, l, r, p);
    MergedWhole(b, v, w, Other(c), l, r, p);
  }

  lemma MergedScanned(b: Board, v: nat, w: Witness, p: int, c: int, d: nat, l: int, r: int)
    requires |w.rep| == |b| == |w.rank| && d < 4 && 2 <= v <= p < |b| - v && 0 <= r < |b|
    requires b[p] == c && (w.rep[p] == l || w.rep[p] == r) && w.rep[r] == r
    requires forall k :: 0 <= k < d && b[Nbr(v, p, k)] == c ==> w.rep[Nbr(v, p, k)] == w.rep[p]
    requires w.rep[Nbr(v, p, d)] == l || w.rep[Nbr(v, p, d)] == r
    ensures InTree(b, Merged(w, l, r), c, r, p)
    ensures forall k :: 0 <= k < d + 1 && b[Nbr(v, p, k)] == c ==> Merged(w, l, r).rep[Nbr(v, p, k)] == r
  {
  }

  lemma MergedRootOwes(b: Board, v: nat, uf: seq<int>, w: Witness, c: int, p: int, root: int, d: nat, l: int, r: int)
    requires Sized(b, uf, w) && d < 4 && l != r && IsStone(c) && IsRoot(b, w, c, l) && IsRoot(b, w, c, r)
    requires OwesBut(b, v, uf, w, c, p, root, d)
    requires InTree(b, w, c, if l == root then r else l, Nbr(v, p, d)) && (l == root || r == root)
    ensures uf[l] + uf[r] + 1 == Owed(b, v, Merged(w, l, r), c, r, p, r, d + 1)
  {
    MergedEdges(b, v, w, c, l, r);
    MergedDue(b, v, w, c, l, r, p, d + 1);
    assert uf[l] == Owed(b, v, w, c, l, p, root, d) && uf[r] == Owed(b, v, w, c, r, p, root, d);
  }

  /** The roots that take no part in the merger owe what they owed. */
  lemma MergedOtherOwes(b: Board, v: nat, uf: seq<int>, w: Witness, c: int, t: int, p: int, root: int, d: nat, l: int,
      r: int)
    requires Sized(b, uf, w) && d < 4 && l != r && IsStone(c) && IsRoot(b, w, c, l) && IsRoot(b, w, c, r)
    requires OwesBut(b, v, uf, w, t, p, root, d) && (l == root || r == root)
    requires 0 <= Nbr(v, p, d) < |b| && b[Nbr(v, p, d)] == c && (w.rep[Nbr(v, p, d)] == l || w.rep[Nbr(v, p, d)] == r)
    ensures forall q :: IsRoot(b, Merged(w, l, r), t, q) && q != r ==>
      uf[q] == Owed(b, v, Merged(w, l, r), t, q, p, r, d + 1) && uf[q] < 0 && q != l
  {
    var m := Merged(w, l, r);
    MergedEdges(b, v, w, t, l, r);
    MergedDue(b, v, w, t, l, r, p, d + 1);
    forall q | IsRoot(b, m, t, q) && q != r
      ensures uf[q] == Owed(b, v, m, t, q, p, r, d + 1) && uf[q] < 0 && q != l
    {
      assert m.rep[q] == if w.rep[q] == l then r else w.rep[q];
      assert IsRoot(b, w, t, q) && q != l;
      assert Due(b, v, w, t, q, p, d) == Due(b, v, w, t, q, p, d + 1);
    }
  }

  lemma MergedOwes(b: Board, v: nat, uf: seq<int>, w: Witness, c: int, p: int, root: int, d: nat, l: int, r: int)
    requires Sized(b, uf, w) && d < 4 && l != r && IsStone(c) && IsRoot(b, w, c, l) && IsRoot(b, w, c, r)
    requires OwesBut(b, v, uf, w, c, p, root, d) && OwesBut(b, v, uf, w, Other(c), p, root, d)
    requires InTree(b, w, c, if l == root then r else l, Nbr(v, p, d)) && (l == root || r == root)
    ensures OwesBut(b, v, uf[r := uf[l] + uf[r] + 1][l := r], Merged(w, l, r), c, p, r, d + 1)
    ensures OwesBut(b, v, uf[r := uf[l] + uf[r] + 1][l := r], Merged(w, l, r), Other(c), p, r, d + 1)
  {
    MergedRootOwes(b, v, uf, w, c, p, root, d, l, r);
    MergedOtherOwes(b, v, uf, w, c, c, p, root, d, l, r);
    MergedOtherOwes(b, v, uf, w, c, Other(c), p, root, d, l, r);
  }

  // Capturing an enemy group ---------------------------------------------------------

  /** The tree of n is its group. */
  lemma GroupIsTree(b: Board, v: nat, uf: seq<int>, w: Witness, c: int, x: int, n: int, q: int)
    requires Trees(b, v, uf, w, c) && WholeBut(b, v, w, c, x) && 0 <= n < |b| && b[n] == c
    requires !(0 <= x < |b|) || b[x] != c
    ensures Conn(b, v, n, q) <==> InTree(b, w, c, w.rep[n], q)
  {
    if Conn(b, v, n, q) {
      var T := set y | 0 <= y < |b| && InTree(b, w, c, w.rep[n], y);
      ConnClosed(b, v, T, n, q);
    }
    if InTree(b, w, c, w.rep[n], q) {
      assert Conn(b, v, q, w.rep[q]) && Conn(b, v, n, w.rep[n]);
      ConnSym(b, v, q, w.rep[q]);
      ConnTrans(b, v, n, w.rep[n], q);
    }
  }

  /** b' is b without the c-coloured tree of root r. */
  ghost predicate Felled(b: Board, b': Board, w: Witness, c: int, r: int)
    requires |w.rep| == |b|
  {
    && |b'| == |b|
    && forall q {:trigger b'[q]} :: 0 <= q < |b| ==> b'[q] == if InTree(b, w, c, r, q) then EMPTY else b[q]
  }

  lemma RepaintFells(b: Board, v: nat, uf: seq<int>, w: Witness, c: int, x: int, n: int)
    requires Trees(b, v, uf, w, c) && WholeBut(b, v, w, c, x) && 0 <= n < |b| && b[n] == c
    requires !(0 <= x < |b|) || b[x] != c
    ensures Felled(b, Repaint(b, v, n, EMPTY), w, c, w.rep[n])
  {
    forall q | 0 <= q < |b|
      ensures Conn(b, v, n, q) <==> InTree(b, w, c, w.rep[n], q)
    {
      GroupIsTree(b, v, uf, w, c, x, n, q);
    }
  }

  lemma FelledTrees(b: Board, v: nat, uf: seq<int>, b': Board, uf': seq<int>, w: Witness, c: int, x: int, r: int)
    requires Trees(b, v, uf, w, c) && WholeBut(b, v, w, c, x) && Felled(b, b', w, c, r) && c != EMPTY
    requires !(0 <= x < |b|) || b[x] != c
    requires |uf'| == |uf| && forall q {:trigger uf'[q]} :: 0 <= q < |b| && b[q] == c ==> uf'[q] == uf[q]
    ensures Trees(b', v, uf', w, c) && WholeBut(b', v, w, c, x)
  {
    var D := set q | 0 <= q < |b| && InTree(b, w, c, r, q);
    assert b' == Emptied(b, D);
    assert Closed(b, v, c, D);
    forall q | 0 <= q < |b| && b'[q] == c
      ensures Conn(b', v, q, w.rep[q]) && Linked(b', uf', w, c, q)
    {
      assert Conn(b, v, q, w.rep[q]) && Linked(b, uf, w, c, q);
      GroupOutside(b, v, c, D, q, w.rep[q]);
    }
  }

  /** The other trees of the captured colour neither gain nor lose an edge. */
  lemma FelledEdges(b: Board, v: nat, b': Board, w: Witness, c: int, x: int, r: int, q: int)
    requires |w.rep| == |b| && WholeBut(b, v, w, c, x) && Felled(b, b', w, c, r) && c != EMPTY && q != r
    requires !(0 <= x < |b|) || b[x] != c
    ensures Edges(b', v, w, c, q) == Edges(b, v, w, c, q)
  {
  }

  lemma {:induction false} FelledDue(b: Board, v: nat, b': Board, w: Witness, c: int, r: int, q: int, x: int, d: nat)
    requires |w.rep| == |b| && Felled(b, b', w, c, r) && c != EMPTY && q != r && d <= 4
    ensures Due(b', v, w, c, q, x, d) == Due(b, v, w, c, q, x, d)
    decreases 4 - d
  {
    if d < 4 {
      FelledDue(b, v, b', w, c, r, q, x, d + 1);
    }
  }

  lemma {:induction false} FelledUnseen(b: Board, v: nat, b': Board, w: Witness, c: int, r: int, x: int, d: nat)
    requires |w.rep| == |b| && Felled(b, b', w, c, r) && d <= 4
    requires forall k :: d <= k < 4 ==> !InTree(b, w, c, r, Nbr(v, x, k))
    ensures Unseen(b', v, x, d) == Unseen(b, v, x, d)
    decreases 4 - d
  {
    if d < 4 {
      FelledUnseen(b, v, b', w, c, r, x, d + 1);
    }
  }

  lemma EdgesGrow(b: Board, v: nat, b': Board, w: Witness, c: int, t: int, r: int, q: int)
    requires |w.rep| == |b| && Felled(b, b', w, c, r) && t != c
    ensures |Edges(b, v, w, t, q)| <= |Edges(b', v, w, t, q)|
  {
    SubsetCard(Edges(b, v, w, t, q), Edges(b', v, w, t, q));
  }

  /** The group at n holds one liberty edge, the one p took: it has no empty
      neighbour, and no direction still open leads to it. */
  lemma LastLiberty(b: Board, v: nat, uf: seq<int>, w: Witness, p: int, c: int, root: int, d: nat)
    requires Scanning(b, v, uf, w, p, c, root, d) && d < 4
    requires b[Nbr(v, p, d)] == Other(c) && uf[w.rep[Nbr(v, p, d)]] == -1
    ensures forall x, y {:trigger Adj(v, x, y)} ::
      (InTree(b, w, Other(c), w.rep[Nbr(v, p, d)], x) && Adj(v, x, y) && 0 <= y < |b| ==> b[y] != EMPTY)
    ensures forall k :: d + 1 <= k < 4 ==> !InTree(b, w, Other(c), w.rep[Nbr(v, p, d)], Nbr(v, p, k))
  {
    var n := Nbr(v, p, d);
    var r := w.rep[n];
    var t := Other(c);
    assert IsRoot(b, w, t, r) && InTree(b, w, t, r, n);
    var E := Edges(b, v, w, t, r);
    assert |E| == 0 && Due(b, v, w, t, r, p, d + 1) == 0;
    DueIsNone(b, v, w, t, r, p, d + 1);
    forall x, y | InTree(b, w, t, r, x) && Adj(v, x, y) && 0 <= y < |b|
      ensures b[y] != EMPTY
    {
      assert b[y] == EMPTY ==> (x, y) in E;
    }
  }

  lemma StepCapture(b: Board, v: nat, uf: seq<int>, b': Board, uf': seq<int>, w: Witness, p: int, c: int, root: int,
      d: nat)
    requires Scanning(b, v, uf, w, p, c, root, d) && d < 4
    requires b[Nbr(v, p, d)] == Other(c) && uf[w.rep[Nbr(v, p, d)]] == -1
    requires b' == Repaint(b, v, Nbr(v, p, d), EMPTY)
    requires CreditedAt(b, uf, b', uf', v, w, c, Nbr(v, p, d))
    ensures Scanning(b', v, uf', w, p, c, root, d + 1)
  {
    var n := Nbr(v, p, d);
    var r := w.rep[n];
    var t := Other(c);
    RepaintFells(b, v, uf, w, t, p, n);
    LastLiberty(b, v, uf, w, p, c, root, d);
    FelledTrees(b, v, uf, b', uf', w, t, p, r);
    CaptureOwesEnemy(b, v, uf, b', uf', w, p, c, root, d);
    CaptureOwesOwn(b, v, uf, b', uf', w, p, c, root, d);
  }

  lemma CaptureOwesEnemy(b: Board, v: nat, uf: seq<int>, b': Board, uf': seq<int>, w: Witness, p: int, c: int,
      root: int, d: nat)
    requires Sized(b, uf, w) && d < 4 && |uf'| == |uf| && 0 <= p < |b|
    requires b[p] == c && IsStone(c) && 0 <= root < |b| && b[root] == c
    requires WholeBut(b, v, w, Other(c), p) && OwesBut(b, v, uf, w, Other(c), p, root, d)
    requires 0 <= Nbr(v, p, d) < |b| && b[Nbr(v, p, d)] == Other(c)
    requires Felled(b, b', w, Other(c), w.rep[Nbr(v, p, d)])
    requires forall q {:trigger uf'[q]} :: 0 <= q < |b| && b[q] == Other(c) ==> uf'[q] == uf[q]
    ensures OwesBut(b', v, uf', w, Other(c), p, root, d + 1)
  {
    var t := Other(c);
    var r := w.rep[Nbr(v, p, d)];
    forall q | IsRoot(b', w, t, q)
      ensures uf'[q] == Owed(b', v, w, t, q, p, root, d + 1) && uf'[q] < 0
    {
      assert IsRoot(b, w, t, q) && q != r;
      FelledEdges(b, v, b', w, t, p, r, q);
      FelledDue(b, v, b', w, t, r, q, p, d + 1);
    }
  }

  lemma CaptureOwesOwn(b: Board, v: nat, uf: seq<int>, b': Board, uf': seq<int>, w: Witness, p: int, c: int,
      root: int, d: nat)
    requires Sized(b, uf, w) && d < 4 && IsStone(c)
    requires OwesBut(b, v, uf, w, c, p, root, d)
    requires 0 <= Nbr(v, p, d) < |b| && b[Nbr(v, p, d)] == Other(c)
    requires Felled(b, b', w, Other(c), w.rep[Nbr(v, p, d)])
    requires forall k :: d + 1 <= k < 4 ==> !InTree(b, w, Other(c), w.rep[Nbr(v, p, d)], Nbr(v, p, k))
    requires CreditedAt(b, uf, b', uf', v, w, c, Nbr(v, p, d))
    ensures OwesBut(b', v, uf', w, c, p, root, d + 1)
  {
    var r := w.rep[Nbr(v, p, d)];
    FelledUnseen(b, v, b', w, Other(c), r, p, d + 1);
    forall q | IsRoot(b', w, c, q)
      ensures uf'[q] == Owed(b', v, w, c, q, p, root, d + 1) && (q != root ==> uf'[q] < 0)
    {
      assert IsRoot(b, w, c, q);
      DueSame(b, b', v, w, c, q, p, d + 1);
      EdgesGrow(b, v, b', w, Other(c), c, r, q);
    }
  }
}
