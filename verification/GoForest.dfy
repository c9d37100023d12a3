/** The union-find forest over stones. A tree holds one group, and the root
    holds minus the number of its liberty edges: the pairs of a stone of the
    group and an empty point next to it. */
module GoForest {
  import opened GoBoard
  import opened GoEngine

  /** Evidence that uf is a forest: the root of each stone, and a rank that
      falls along the links. */
  datatype Witness = Witness(rep: seq<int>, rank: seq<nat>)

  ghost predicate Sized(b: Board, uf: seq<int>, w: Witness) {
    |uf| == |b| == |w.rep| == |w.rank|
  }

  /** p is a root itself or links to a stone of its own tree, of lower rank. */
  ghost predicate Linked(b: Board, uf: seq<int>, w: Witness, c: int, p: int)
    requires Sized(b, uf, w) && 0 <= p < |b|
  {
    if uf[p] <= 0 then w.rep[p] == p
    else uf[p] < |b| && b[uf[p]] == c && w.rep[uf[p]] == w.rep[p] && w.rank[uf[p]] < w.rank[p]
  }

  ghost predicate Trees(b: Board, v: nat, uf: seq<int>, w: Witness, c: int) {
    && Sized(b, uf, w)
    && (forall p {:trigger w.rep[p]} :: 0 <= p < |b| && b[p] == c ==>
      var r := w.rep[p]; 0 <= r < |b| && b[r] == c && w.rep[r] == r && uf[r] <= 0)
    && (forall p {:trigger Conn(b, v, p, w.rep[p])} :: 0 <= p < |b| && b[p] == c ==> Conn(b, v, p, w.rep[p]))
    && (forall p {:trigger Linked(b, uf, w, c, p)} :: 0 <= p < |b| && b[p] == c ==> Linked(b, uf, w, c, p))
  }

  /** Neighbours of one colour are in one tree, except possibly across x. */
  ghost predicate WholeBut(b: Board, v: nat, w: Witness, c: int, x: int)
    requires |w.rep| == |b|
  {
    forall p, q {:trigger Adj(v, p, q)} ::
      0 <= p < |b| && 0 <= q < |b| && b[p] == c && b[q] == c && p != x && q != x && Adj(v, p, q)
      ==> w.rep[p] == w.rep[q]
  }

  ghost predicate InTree(b: Board, w: Witness, c: int, r: int, q: int)
    requires |w.rep| == |b|
  {
    0 <= q < |b| && b[q] == c && w.rep[q] == r
  }

  /** The liberty edges of the c-coloured tree with root r. */
  ghost function Edges(b: Board, v: nat, w: Witness, c: int, r: int): set<(int, int)>
    requires |w.rep| == |b|
  {
    set q, z | 0 <= q < |b| && 0 <= z < |b| && Adj(v, q, z) && b[z] == EMPTY && b[q] == c && w.rep[q] == r :: (q, z)
  }

  /** How many of the neighbours of x in directions d to 3 are in the tree. */
  ghost function Due(b: Board, v: nat, w: Witness, c: int, r: int, x: int, d: nat): nat
    requires |w.rep| == |b| && d <= 4
    decreases 4 - d
  {
    if d == 4 then 0
    else (if InTree(b, w, c, r, Nbr(v, x, d)) then 1 else 0) + Due(b, v, w, c, r, x, d + 1)
  }

  lemma {:induction false} RootIsRep(b: Board, v: nat, uf: seq<int>, w: Witness, c: int, p: int)
    requires Trees(b, v, uf, w, c) && 0 <= p < |b| && b[p] == c
    ensures Root(uf, p) == w.rep[p]
  {
    var n := RootWalk(b, v, uf, w, c, p);
    RootIs(uf, p, n);
  }

  lemma {:induction false} RootWalk(b: Board, v: nat, uf: seq<int>, w: Witness, c: int, p: int) returns (n: nat)
    requires Trees(b, v, uf, w, c) && 0 <= p < |b| && b[p] == c
    ensures AtRoot(uf, Walk(uf, p, n)) && Walk(uf, p, n) == w.rep[p]
    decreases w.rank[p]
  {
    assert Linked(b, uf, w, c, p);
    if uf[p] <= 0 {
      n := 0;
    } else {
      var m := RootWalk(b, v, uf, w, c, uf[p]);
      n := m + 1;
    }
  }

  // Crediting liberty edges ---------------------------------------------------

  ghost function DueEdges(b: Board, v: nat, w: Witness, c: int, r: int, x: int, d: nat): set<(int, int)>
    requires |w.rep| == |b| && d <= 4
    decreases 4 - d
  {
    if d == 4 then {}
    else (if InTree(b, w, c, r, Nbr(v, x, d)) then {(Nbr(v, x, d), x)} else {}) + DueEdges(b, v, w, c, r, x, d + 1)
  }

  lemma {:induction false} DueEdgesCount(b: Board, v: nat, w: Witness, c: int, r: int, x: int, d: nat)
    requires |w.rep| == |b| && d <= 4 && 2 <= v
    ensures |DueEdges(b, v, w, c, r, x, d)| == Due(b, v, w, c, r, x, d)
    ensures forall k :: 0 <= k < d ==> (Nbr(v, x, k), x) !in DueEdges(b, v, w, c, r, x, d)
    decreases 4 - d
  {
    if d < 4 {
      DueEdgesCount(b, v, w, c, r, x, d + 1);
    }
  }

  lemma DueEdgesAre(b: Board, v: nat, w: Witness, c: int, r: int, x: int)
    requires |w.rep| == |b|
    ensures DueEdges(b, v, w, c, r, x, 0) == set q | 0 <= q < |b| && InTree(b, w, c, r, q) && Adj(v, q, x) :: (q, x)
  {
    assert DueEdges(b, v, w, c, r, x, 4) == {};
    assert DueEdges(b, v, w, c, r, x, 2) == DueEdges(b, v, w, c, r, x, 2);
  }

  /** Emptying a point outside the tree gives the tree one liberty edge for
      each of its stones next to that point. */
  lemma EdgesGained(b: Board, v: nat, w: Witness, c: int, r: int, x: int)
    requires |w.rep| == |b| && 2 <= v && 0 <= x < |b| && b[x] != EMPTY && c != EMPTY && !InTree(b, w, c, r, x)
    ensures |Edges(b[x := EMPTY], v, w, c, r)| == |Edges(b, v, w, c, r)| + Due(b, v, w, c, r, x, 0)
  {
    var E, E' := Edges(b, v, w, c, r), Edges(b[x := EMPTY], v, w, c, r);
    var F := set q | 0 <= q < |b| && InTree(b, w, c, r, q) && Adj(v, q, x) :: (q, x);
    DueEdgesCount(b, v, w, c, r, x, 0);
    DueEdgesAre(b, v, w, c, r, x);
    EdgesSplit(b, v, w, c, r, x, E, F);
    assert E !! F;
  }

  lemma EdgesSplit(b: Board, v: nat, w: Witness, c: int, r: int, x: int, E: set<(int, int)>, F: set<(int, int)>)
    requires |w.rep| == |b| && 0 <= x < |b| && b[x] != EMPTY && c != EMPTY && !InTree(b, w, c, r, x)
    requires E == Edges(b, v, w, c, r)
    requires F == set q | 0 <= q < |b| && InTree(b, w, c, r, q) && Adj(v, q, x) :: (q, x)
    ensures Edges(b[x := EMPTY], v, w, c, r) == E + F
  {
    var E' := Edges(b[x := EMPTY], v, w, c, r);
    forall e | e in E'
      ensures e in E + F
    {
      if e.1 == x {
        assert e == (e.0, x);
      }
    }
    forall e | e in E
      ensures e in E'
    {
    }
    forall e | e in F
      ensures e in E'
    {
    }
  }

  // What a capture does to the trees of the other colour ------------------------

  ghost predicate IsRoot(b: Board, w: Witness, c: int, r: int)
    requires |w.rep| == |b|
  {
    0 <= r < |b| && b[r] == c && w.rep[r] == r
  }

  /** The c-coloured trees are still there, with only root values changed. */
  ghost predicate SameTrees(b: Board, uf: seq<int>, b': Board, uf': seq<int>, v: nat, w: Witness, c: int)
    requires Sized(b, uf, w)
  {
    && |b'| == |b|
    && (forall q {:trigger b'[q]} :: 0 <= q < |b| ==> (b'[q] == c <==> b[q] == c))
    && Trees(b', v, uf', w, c)
    && (forall i {:trigger uf'[i]} :: 0 <= i < |uf| && !IsRoot(b, w, c, i) ==> uf'[i] == uf[i])
  }

  lemma SameTreesTrans(b: Board, uf: seq<int>, b': Board, uf': seq<int>, b'': Board, uf'': seq<int>, v: nat,
      w: Witness, c: int)
    requires Sized(b, uf, w) && SameTrees(b, uf, b', uf', v, w, c) && SameTrees(b', uf', b'', uf'', v, w, c)
    ensures SameTrees(b, uf, b'', uf'', v, w, c)
  {
  }

  lemma TreesStay(b: Board, uf: seq<int>, b': Board, uf': seq<int>, v: nat, w: Witness, c: int)
    requires Trees(b, v, uf, w, c) && |b'| == |b| && |uf'| == |uf|
    requires forall q {:trigger b'[q]} :: 0 <= q < |b| ==> (b'[q] == c <==> b[q] == c)
    requires forall i {:trigger uf'[i]} :: 0 <= i < |uf| ==>
      if IsRoot(b, w, c, i) then uf'[i] <= 0 else uf'[i] == uf[i]
    ensures SameTrees(b, uf, b', uf', v, w, c)
  {
    forall p | 0 <= p < |b| && b[p] == c
      ensures Conn(b', v, p, w.rep[p]) && Linked(b', uf', w, c, p)
    {
      assert Conn(b, v, p, w.rep[p]) && Linked(b, uf, w, c, p);
      ConnMono(b, b', v, p, w.rep[p]);
    }
  }

  lemma TreesOnly(b: Board, uf: seq<int>, b': Board, uf': seq<int>, v: nat, w: Witness, c: int)
    requires Trees(b, v, uf, w, c) && |b'| == |b| && |uf'| == |uf|
    requires forall q {:trigger b'[q]} :: 0 <= q < |b| ==> (b'[q] == c <==> b[q] == c)
    requires forall i {:trigger uf'[i]} :: 0 <= i < |uf| && b[i] == c ==>
      if w.rep[i] == i then uf'[i] <= 0 else uf'[i] == uf[i]
    ensures Trees(b', v, uf', w, c)
  {
    forall p | 0 <= p < |b| && b[p] == c
      ensures Conn(b', v, p, w.rep[p]) && Linked(b', uf', w, c, p)
    {
      assert Conn(b, v, p, w.rep[p]) && Linked(b, uf, w, c, p);
      ConnMono(b, b', v, p, w.rep[p]);
    }
  }

  lemma {:induction false} DueSame(b: Board, b': Board, v: nat, w: Witness, c: int, r: int, x: int, d: nat)
    requires |w.rep| == |b| == |b'| && d <= 4
    requires forall q {:trigger b'[q]} :: 0 <= q < |b| ==> (b'[q] == c <==> b[q] == c)
    ensures Due(b', v, w, c, r, x, d) == Due(b, v, w, c, r, x, d)
    decreases 4 - d
  {
    if d < 4 {
      DueSame(b, b', v, w, c, r, x, d + 1);
    }
  }

  /** The sum of a root value and the liberty edges of its tree. */
  ghost function Slack(b: Board, uf: seq<int>, v: nat, w: Witness, c: int, r: int): int
    requires Sized(b, uf, w) && 0 <= r < |uf|
  {
    uf[r] + |Edges(b, v, w, c, r)|
  }

  /** Every c-coloured tree stays and is credited one edge if it holds n. */
  ghost predicate CreditedAt(b: Board, uf: seq<int>, b': Board, uf': seq<int>, v: nat, w: Witness, c: int, n: int)
    requires Sized(b, uf, w)
  {
    && SameTrees(b, uf, b', uf', v, w, c)
    && forall q :: IsRoot(b, w, c, q) ==>
      Slack(b', uf', v, w, c, q) == Slack(b, uf, v, w, c, q) - if InTree(b, w, c, q, n) then 1 else 0
  }

  /** Every c-coloured tree stays and is credited one edge for each neighbour of
      x that it holds, in directions d to 3. */
  ghost predicate CreditedAround(b: Board, uf: seq<int>, b': Board, uf': seq<int>, v: nat, w: Witness, c: int, x: int,
      d: nat)
    requires Sized(b, uf, w) && d <= 4
  {
    && SameTrees(b, uf, b', uf', v, w, c)
    && forall q :: IsRoot(b, w, c, q) ==>
      Slack(b', uf', v, w, c, q) == Slack(b, uf, v, w, c, q) - Due(b, v, w, c, q, x, d)
  }

  lemma CreditedNext(b: Board, uf: seq<int>, b': Board, uf': seq<int>, b'': Board, uf'': seq<int>,
                     v: nat, w: Witness, c: int, x: int, d: nat)
    requires Sized(b, uf, w) && d < 4
    requires CreditedAt(b, uf, b', uf', v, w, c, Nbr(v, x, d)) && CreditedAround(b', uf', b'', uf'', v, w, c, x, d + 1)
    ensures CreditedAround(b, uf, b'', uf'', v, w, c, x, d)
  {
    SameTreesTrans(b, uf, b', uf', b'', uf'', v, w, c);
    forall q | IsRoot(b, w, c, q)
      ensures Slack(b'', uf'', v, w, c, q) == Slack(b, uf, v, w, c, q) - Due(b, v, w, c, q, x, d)
    {
      assert IsRoot(b', w, c, q);
      DueSame(b, b', v, w, c, q, x, d + 1);
    }
  }

  lemma CreditedRemoved(b: Board, uf: seq<int>, b'': Board, uf'': seq<int>, v: nat, w: Witness, c: int, x: int)
    requires Trees(b, v, uf, w, c) && 2 <= v && 0 <= x < |b| && b[x] != EMPTY && b[x] != c && c != EMPTY
    requires CreditedAround(b[x := EMPTY], uf, b'', uf'', v, w, c, x, 0)
    ensures CreditedAt(b, uf, b'', uf'', v, w, c, x)
  {
    var b' := b[x := EMPTY];
    TreesStay(b, uf, b', uf, v, w, c);
    SameTreesTrans(b, uf, b', uf, b'', uf'', v, w, c);
    forall q | IsRoot(b, w, c, q)
      ensures Slack(b'', uf'', v, w, c, q) == Slack(b, uf, v, w, c, q)
    {
      assert IsRoot(b', w, c, q);
      EdgesGained(b, v, w, c, q, x);
      DueSame(b, b', v, w, c, q, x, 0);
    }
  }

  /** Capturing at p keeps root value plus liberty edges of every enemy tree,
      except that the tree of an enemy stone at p itself is credited one edge. */
  lemma {:induction false} CaptureCredits(e: Env, s: Pos, p: int, c: int, w: Witness)
    requires Shape(e, s) && 0 <= p < |s.board| && IsStone(c) && Trees(s.board, e.v, s.uf, w, Other(c))
    ensures var r := Capture(e, s, p, c).0; CreditedAt(s.board, s.uf, r.board, r.uf, e.v, w, Other(c), p)
    decreases Count(s.board, c), 0
  {
    var t := Other(c);
    if s.board[p] == c {
      var s0 := Paint(e, s, p, c, EMPTY, 1);
      CountUpdate(s.board, p, EMPTY, c);
      TreesStay(s.board, s.uf, s0.board, s0.uf, e.v, w, t);
      CaptureAroundCredits(e, s0, p, c, w, 0);
      var r := CaptureAround(e, s0, p, c, 0).0;
      CreditedRemoved(s.board, s.uf, r.board, r.uf, e.v, w, t, p);
    } else if s.board[p] == t {
      RootIsRep(s.board, e.v, s.uf, w, t, p);
      TreesStay(s.board, s.uf, s.board, UfAdd(s, w.rep[p], -1).uf, e.v, w, t);
    } else {
      TreesStay(s.board, s.uf, s.board, s.uf, e.v, w, t);
    }
  }

  lemma {:induction false} CaptureAroundCredits(e: Env, s: Pos, p: int, c: int, w: Witness, d: nat)
    requires Shape(e, s) && 2 <= e.v <= p < |s.board| - e.v && d <= 4 && IsStone(c)
    requires Trees(s.board, e.v, s.uf, w, Other(c))
    ensures var r := CaptureAround(e, s, p, c, d).0;
            CreditedAround(s.board, s.uf, r.board, r.uf, e.v, w, Other(c), p, d)
    decreases Count(s.board, c), 5 - d
  {
    var t := Other(c);
    if d == 4 {
      TreesStay(s.board, s.uf, s.board, s.uf, e.v, w, t);
    } else {
      var n := Nbr(e.v, p, d);
      var a := Capture(e, s, n, c);
      var r := CaptureAround(e, a.0, p, c, d + 1);
      assert CaptureAround(e, s, p, c, d).0 == r.0;
      CaptureCredits(e, s, n, c, w);
      CaptureAroundCredits(e, a.0, p, c, w, d + 1);
      CreditedNext(s.board, s.uf, a.0.board, a.0.uf, r.0.board, r.0.uf, e.v, w, t, p, d);
    }
  }
}
