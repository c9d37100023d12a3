/** The four-neighbour scan of a move. While directions d to 3 are still to be
    looked at, every root holds minus its liberty edges as if the stone just
    placed were not yet seen from those directions. */
module GoScan {
  import opened GoBoard
  import opened GoForest

  /** Empty neighbours of p in directions d to 3. */
  ghost function Unseen(b: Board, v: nat, p: int, d: nat): nat
    requires d <= 4
    decreases 4 - d
  {
    if d == 4 then 0
    else (if 0 <= Nbr(v, p, d) < |b| && b[Nbr(v, p, d)] == EMPTY then 1 else 0) + Unseen(b, v, p, d + 1)
  }

  /** What a root must hold while directions d to 3 around p are open. */
  ghost function Owed(b: Board, v: nat, w: Witness, c: int, r: int, p: int, root: int, d: nat): int
    requires |w.rep| == |b| && d <= 4
  {
    (if r == root then Unseen(b, v, p, d) else 0) - |Edges(b, v, w, c, r)| - Due(b, v, w, c, r, p, d)
  }

  ghost predicate OwesBut(b: Board, v: nat, uf: seq<int>, w: Witness, c: int, p: int, root: int, d: nat)
    requires Sized(b, uf, w) && d <= 4
  {
    forall r {:trigger IsRoot(b, w, c, r)} :: IsRoot(b, w, c, r) ==>
      uf[r] == Owed(b, v, w, c, r, p, root, d) && (r != root ==> uf[r] < 0)
  }

  ghost predicate Scanning(b: Board, v: nat, uf: seq<int>, w: Witness, p: int, c: int, root: int, d: nat) {
    && d <= 4 && IsStone(c) && Framed(b, v)
    && Trees(b, v, uf, w, c) && Trees(b, v, uf, w, Other(c))
    && WholeBut(b, v, w, c, p) && WholeBut(b, v, w, Other(c), p)
    && InTree(b, w, c, root, p)
    && (forall k :: 0 <= k < d && b[Nbr(v, p, k)] == c ==> w.rep[Nbr(v, p, k)] == root)
    && OwesBut(b, v, uf, w, c, p, root, d) && OwesBut(b, v, uf, w, Other(c), p, root, d)
  }

  // Counting around p ---------------------------------------------------------

  ghost function UnseenEdges(b: Board, v: nat, p: int, d: nat): set<(int, int)>
    requires d <= 4
    decreases 4 - d
  {
    if d == 4 then {}
    else
      (if 0 <= Nbr(v, p, d) < |b| && b[Nbr(v, p, d)] == EMPTY then {(p, Nbr(v, p, d))} else {})
      + UnseenEdges(b, v, p, d + 1)
  }

  lemma {:induction false} UnseenEdgesCount(b: Board, v: nat, p: int, d: nat)
    requires d <= 4 && 2 <= v
    ensures |UnseenEdges(b, v, p, d)| == Unseen(b, v, p, d)
    ensures forall k :: 0 <= k < d ==> (p, Nbr(v, p, k)) !in UnseenEdges(b, v, p, d)
    decreases 4 - d
  {
    if d < 4 {
      UnseenEdgesCount(b, v, p, d + 1);
    }
  }

  lemma UnseenEdgesAre(b: Board, v: nat, p: int)
    ensures UnseenEdges(b, v, p, 0) == set z | 0 <= z < |b| && Adj(v, p, z) && b[z] == EMPTY :: (p, z)
  {
    assert UnseenEdges(b, v, p, 4) == {};
    assert UnseenEdges(b, v, p, 2) == UnseenEdges(b, v, p, 2);
  }

  lemma {:induction false} UnseenFewer(b: Board, v: nat, p: int, d: nat)
    requires d <= 4
    ensures Unseen(b, v, p, d) <= Unseen(b, v, p, 0)
    decreases d
  {
    if d > 0 {
      UnseenFewer(b, v, p, d - 1);
    }
  }

  lemma SubsetCard<T>(a: set<T>, b: set<T>)
    requires a <= b
    ensures |a| <= |b|
  {
    assert b == a + (b - a);
  }

  lemma UnseenAtMost(b: Board, v: nat, w: Witness, c: int, p: int, d: nat)
    requires |w.rep| == |b| && d <= 4 && 2 <= v && 0 <= p < |b| && b[p] == c
    ensures Unseen(b, v, p, d) <= |Edges(b, v, w, c, w.rep[p])|
  {
    UnseenFewer(b, v, p, d);
    UnseenEdgesCount(b, v, p, 0);
    UnseenEdgesAre(b, v, p);
    SubsetCard(UnseenEdges(b, v, p, 0), Edges(b, v, w, c, w.rep[p]));
  }

  lemma UnseenIsAll(b: Board, v: nat, w: Witness, c: int, p: int)
    requires |w.rep| == |b| && 2 <= v && 0 <= p < |b| && b[p] == c
    requires forall q :: InTree(b, w, c, p, q) ==> q == p
    requires w.rep[p] == p
    ensures Unseen(b, v, p, 0) == |Edges(b, v, w, c, p)|
  {
    UnseenEdgesCount(b, v, p, 0);
    UnseenEdgesAre(b, v, p);
    forall e | e in Edges(b, v, w, c, p)
      ensures e in UnseenEdges(b, v, p, 0)
    {
      assert InTree(b, w, c, p, e.0);
      assert e == (p, e.1);
    }
    assert UnseenEdges(b, v, p, 0) == Edges(b, v, w, c, p);
  }

  lemma {:induction false} DueIsNone(b: Board, v: nat, w: Witness, c: int, r: int, x: int, d: nat)
    requires |w.rep| == |b| && d <= 4
    ensures Due(b, v, w, c, r, x, d) == 0 <==> forall k :: d <= k < 4 ==> !InTree(b, w, c, r, Nbr(v, x, k))
    decreases 4 - d
  {
    if d < 4 {
      DueIsNone(b, v, w, c, r, x, d + 1);
    }
  }
}
