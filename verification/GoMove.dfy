/** The whole scan of a move: the forest is sound again afterwards, what was
    captured is a set of dead groups, and the log and tallies are kept. */
module GoMove {
  import opened GoBoard
  import opened GoRules
  import opened GoEngine
  import opened GoTally
  import opened GoForest
  import opened GoLog
  import opened GoScan
  import opened GoSteps

  /** The groups of the flagged neighbours of p, in directions d to 3. */
  ghost function Taken(b: Board, v: nat, p: int, flags: seq<bool>, d: nat): set<int>
    requires d <= 4 && |flags| == 4 - d
    decreases 4 - d
  {
    if d == 4 then {}
    else (if flags[0] then Group(b, v, Nbr(v, p, d)) else {}) + Taken(b, v, p, flags[1..], d + 1)
  }

  /** How a neighbour n changes the ko state k, given whether it was captured. */
  ghost function KoStep(b: Board, v: nat, n: int, c: int, flag: bool, k: int): int
    requires 0 <= n < |b|
  {
    if b[n] == EDGE || (b[n] == Other(c) && !flag) then k
    else if flag && k == 0 && |Group(b, v, n)| == 1 then n
    else -1
  }

  ghost function KoAfter(b: Board, v: nat, p: int, c: int, flags: seq<bool>, d: nat, k: int): int
    requires d <= 4 && |flags| == 4 - d && 2 <= v <= p < |b| - v
    decreases 4 - d
  {
    if d == 4 then k else KoAfter(b, v, p, c, flags[1..], d + 1, KoStep(b, v, Nbr(v, p, d), c, flags[0], k))
  }

  /** The state of the scan before direction d: b0 is the board with the stone
      at p placed and nothing captured yet, D what has been captured since. */
  ghost predicate Along(e: Env, b0: Board, g: Look, p: int, c: int, d: nat, D: set<int>, w: Witness) {
    && LookShape(e, g)
    && |b0| == |g.pos.board|
    && Scanning(g.pos.board, e.v, g.pos.uf, w, p, c, g.root, d)
    && Tallied(e, g.pos)
    && 2 <= e.v <= p < |b0| - e.v && b0[p] == c
    && DeadSet(b0, e.v, Other(c), D)
    && g.pos.board == Emptied(b0, D)
    && forall k :: d <= k < 4 ==> Nbr(e.v, p, k) !in D
  }

  /** What one look at a neighbour keeps and records. */
  ghost predicate Looked(e: Env, g: Look, h: Look) {
    Logged(g.pos, h.pos) && Balanced(g.pos, h.pos)
  }

  lemma LookCaptures(e: Env, b0: Board, g: Look, p: int, c: int, d: nat, D: set<int>, w: Witness)
    requires Along(e, b0, g, p, c, d, D, w) && d < 4
    requires b0[Nbr(e.v, p, d)] == Other(c) && g.pos.uf[w.rep[Nbr(e.v, p, d)]] == -1
    ensures var n := Nbr(e.v, p, d); var a := Capture(e, g.pos, n, Other(c));
            && Scanning(a.0.board, e.v, a.0.uf, w, p, c, g.root, d + 1)
            && Logged(g.pos, a.0) && Balanced(g.pos, a.0) && Tallied(e, a.0)
            && a.0.board == Emptied(b0, D + Group(b0, e.v, n))
            && DeadSet(b0, e.v, Other(c), D + Group(b0, e.v, n))
            && (forall k :: d + 1 <= k < 4 ==> Nbr(e.v, p, k) !in D + Group(b0, e.v, n))
            && a.1 == |Group(b0, e.v, n)|
  {
    var s := g.pos;
    var n := Nbr(e.v, p, d);
    var t := Other(c);
    var a := Capture(e, s, n, t);
    CaptureCredits(e, s, n, t, w);
    CaptureTallied(e, s, n, t);
    CaptureLogged(e, s, n, t, w);
    StepCapture(s.board, e.v, s.uf, a.0.board, a.0.uf, w, p, c, g.root, d);
    CaptureMore(b0, e.v, t, D, n);
    LastLiberty(s.board, e.v, s.uf, w, p, c, g.root, d);
    forall q | 0 <= q < |b0|
      ensures q in Group(b0, e.v, n) <==> InTree(s.board, w, t, w.rep[n], q)
    {
      GroupOutside(b0, e.v, t, D, n, q);
      GroupIsTree(s.board, e.v, s.uf, w, t, p, n, q);
    }
    GroupClosed(b0, e.v, n);
    CapturedIsDead(b0, e.v, t, D, Group(b0, e.v, n), s.board);
    CapturedCount(b0, t, D, Group(b0, e.v, n));
  }

  lemma CapturedCount(b0: Board, t: int, D: set<int>, G: set<int>)
    requires t != EMPTY && D !! G && forall x :: x in G ==> 0 <= x < |b0| && b0[x] == t
    ensures Count(Emptied(b0, D), t) == Count(Emptied(b0, D + G), t) + |G|
  {
    assert Points(Emptied(b0, D), t) == Points(Emptied(b0, D + G), t) + G;
    assert Points(Emptied(b0, D + G), t) !! G;
  }

  lemma CapturedIsDead(b0: Board, v: nat, t: int, D: set<int>, G: set<int>, b: Board)
    requires DeadSet(b0, v, t, D) && b == Emptied(b0, D)
    requires forall x :: x in G ==> 0 <= x < |b0| && b0[x] == t
    requires Closed(b0, v, t, G)
    requires forall x, y {:trigger Adj(v, x, y)} :: (x in G && Adj(v, x, y) && 0 <= y < |b| ==> b[y] != EMPTY)
    ensures DeadSet(b0, v, t, D + G)
  {
  }

  /** A look that captures nothing changes only the forest. */
  lemma LookKept(e: Env, b0: Board, g: Look, h: Look, p: int, c: int, d: nat, D: set<int>, w: Witness, w': Witness)
    requires Along(e, b0, g, p, c, d, D, w) && d < 4
    requires h.pos.board == g.pos.board && h.pos.hash == g.pos.hash && h.pos.caps == g.pos.caps
    requires Scanning(h.pos.board, e.v, h.pos.uf, w', p, c, h.root, d + 1)
    requires Logged(g.pos, h.pos)
    ensures Along(e, b0, h, p, c, d + 1, D, w') && Looked(e, g, h)
  {
  }

  ghost predicate Passed(e: Env, b0: Board, g: Look, p: int, c: int, d: nat, D: set<int>, w': Witness)
    requires LookShape(e, g) && 2 <= e.v <= p < |g.pos.board| - e.v && |b0| == |g.pos.board| && d < 4
  {
    var n := Nbr(e.v, p, d);
    var r := Neighbour(e, g, n, c);
    && Along(e, b0, r.0, p, c, d + 1, if r.1 then D + Group(b0, e.v, n) else D, w')
    && Looked(e, g, r.0)
    && r.0.kostat == KoStep(b0, e.v, n, c, r.1, g.kostat)
    && (r.1 ==> b0[n] == Other(c))
  }

  lemma LookEdge(e: Env, b0: Board, g: Look, p: int, c: int, d: nat, D: set<int>, w: Witness)
    requires Along(e, b0, g, p, c, d, D, w) && d < 4 && g.pos.board[Nbr(e.v, p, d)] == EDGE
    ensures Passed(e, b0, g, p, c, d, D, w)
  {
    var s := g.pos;
    assert b0[Nbr(e.v, p, d)] == EDGE;
    StepEdge(s.board, e.v, s.uf, w, p, c, g.root, d);
    LoggedSame(s, s);
    LookKept(e, b0, g, g, p, c, d, D, w, w);
  }

  lemma LookEmpty(e: Env, b0: Board, g: Look, p: int, c: int, d: nat, D: set<int>, w: Witness)
    requires Along(e, b0, g, p, c, d, D, w) && d < 4 && g.pos.board[Nbr(e.v, p, d)] == EMPTY
    ensures Passed(e, b0, g, p, c, d, D, w)
  {
    var s := g.pos;
    var h := Look(UfAdd(s, g.root, -1), g.root, -1);
    assert Neighbour(e, g, Nbr(e.v, p, d), c) == (h, false);
    assert b0[Nbr(e.v, p, d)] == EMPTY;
    StepEmpty(s.board, e.v, s.uf, w, p, c, g.root, d);
    UfSetLogged(s, g.root, s.uf[g.root] - 1);
    LookKept(e, b0, g, h, p, c, d, D, w, w);
  }

  lemma LookDiscounts(e: Env, b0: Board, g: Look, p: int, c: int, d: nat, D: set<int>, w: Witness)
    requires Along(e, b0, g, p, c, d, D, w) && d < 4 && IsStone(g.pos.board[Nbr(e.v, p, d)])
    requires var n := Nbr(e.v, p, d); if g.pos.board[n] == c then w.rep[n] == g.root else g.pos.uf[w.rep[n]] != -1
    ensures Passed(e, b0, g, p, c, d, D, w)
  {
    var s := g.pos;
    var n := Nbr(e.v, p, d);
    var r := Neighbour(e, g, n, c);
    assert s.board[n] == b0[n];
    RootIsRep(s.board, e.v, s.uf, w, s.board[n], n);
    StepDiscount(s.board, e.v, s.uf, w, p, c, g.root, d);
    UfSetLogged(s, w.rep[n], s.uf[w.rep[n]] + 1);
    LookKept(e, b0, g, r.0, p, c, d, D, w, w);
  }

  lemma NeighbourMerges(e: Env, g: Look, n: int, c: int, l: int, r: int)
    requires LookShape(e, g) && 0 <= n < |g.pos.board| && g.pos.board[n] == c && IsStone(c)
    requires Root(g.pos.uf, n) != g.root
    requires var nr := Root(g.pos.uf, n);
      if g.pos.uf[g.root] < g.pos.uf[nr] then l == nr && r == g.root else l == g.root && r == nr
    ensures Neighbour(e, g, n, c) == (Look(UfSet(UfSet(g.pos, r, g.pos.uf[l] + g.pos.uf[r] + 1), l, r), r, -1), false)
  {
  }

  lemma LookMerges(e: Env, b0: Board, g: Look, p: int, c: int, d: nat, D: set<int>, w: Witness, l: int, r: int)
    requires Along(e, b0, g, p, c, d, D, w) && d < 4
    requires g.pos.board[Nbr(e.v, p, d)] == c && w.rep[Nbr(e.v, p, d)] != g.root
    requires var nr := w.rep[Nbr(e.v, p, d)];
      if g.pos.uf[g.root] < g.pos.uf[nr] then l == nr && r == g.root else l == g.root && r == nr
    ensures Passed(e, b0, g, p, c, d, D, Merged(w, l, r))
  {
    hide Conn, WholeBut, OwesBut, Tallied, DeadSet, Linked, Group, Balanced, Neighbour, Merged, Logged;
    var s := g.pos;
    var n := Nbr(e.v, p, d);
    assert b0[n] == c;
    RootIsRep(s.board, e.v, s.uf, w, c, n);
    var x := s.uf[l] + s.uf[r] + 1;
    var h := Look(UfSet(UfSet(s, r, x), l, r), r, -1);
    NeighbourMerges(e, g, n, c, l, r);
    StepMerge(s.board, e.v, s.uf, w, p, c, g.root, d, l, r);
    assert h.pos.uf == s.uf[r := x][l := r] && 2 <= e.v <= r && e.v <= l;
    MergeLogged(s, r, x, l);
    LookKept(e, b0, g, h, p, c, d, D, w, Merged(w, l, r));
  }

  lemma NeighbourScans(e: Env, b0: Board, g: Look, p: int, c: int, d: nat, D: set<int>, w: Witness)
    returns (w': Witness)
    requires Along(e, b0, g, p, c, d, D, w) && d < 4
    ensures Passed(e, b0, g, p, c, d, D, w')
  {
    var s := g.pos;
    var n := Nbr(e.v, p, d);
    w' := w;
    assert s.board[n] == b0[n];
    if s.board[n] == EDGE {
      LookEdge(e, b0, g, p, c, d, D, w);
    } else if s.board[n] == EMPTY {
      LookEmpty(e, b0, g, p, c, d, D, w);
    } else if s.board[n] == c && w.rep[n] != g.root {
      var nr := w.rep[n];
      var l, r := if s.uf[g.root] < s.uf[nr] then nr else g.root, if s.uf[g.root] < s.uf[nr] then g.root else nr;
      LookMerges(e, b0, g, p, c, d, D, w, l, r);
      w' := Merged(w, l, r);
    } else if s.board[n] != c && s.uf[w.rep[n]] == -1 {
      RootIsRep(s.board, e.v, s.uf, w, s.board[n], n);
      LookCaptures(e, b0, g, p, c, d, D, w);
    } else {
      LookDiscounts(e, b0, g, p, c, d, D, w);
    }
  }

  lemma NeighbourScansTo(e: Env, b0: Board, g: Look, p: int, c: int, d: nat, D: set<int>, w: Witness, a: (Look, bool),
      D1: set<int>)
    returns (w': Witness)
    requires Along(e, b0, g, p, c, d, D, w) && d < 4 && a == Neighbour(e, g, Nbr(e.v, p, d), c)
    requires D1 == if a.1 then D + Group(b0, e.v, Nbr(e.v, p, d)) else D
    ensures Along(e, b0, a.0, p, c, d + 1, D1, w') && Looked(e, g, a.0)
    ensures a.0.kostat == KoStep(b0, e.v, Nbr(e.v, p, d), c, a.1, g.kostat)
    ensures a.1 ==> b0[Nbr(e.v, p, d)] == Other(c)
  {
    w' := NeighbourScans(e, b0, g, p, c, d, D, w);
  }

  lemma MergeLogged(s: Pos, r: int, x: int, l: int)
    requires 0 < r < |s.uf| && 0 < l < |s.uf|
    ensures Logged(s, UfSet(UfSet(s, r, x), l, r))
  {
    UfSetLogged(s, r, x);
    UfSetLogged(UfSet(s, r, x), l, r);
    LoggedTrans(s, UfSet(s, r, x), UfSet(UfSet(s, r, x), l, r));
  }

  ghost predicate Done(e: Env, b0: Board, g: Look, p: int, c: int, d: nat, D: set<int>, r: (Look, seq<bool>),
      w: Witness)
    requires d <= 4 && |r.1| == 4 - d && 2 <= e.v <= p < |b0| - e.v
  {
    && Along(e, b0, r.0, p, c, 4, D + Taken(b0, e.v, p, r.1, d), w)
    && Looked(e, g, r.0)
    && r.0.kostat == KoAfter(b0, e.v, p, c, r.1, d, g.kostat)
    && Flagged(b0, e.v, p, c, r.1, d)
  }

  /** Only enemy groups are flagged, and each at the last direction leading to it. */
  ghost predicate Flagged(b0: Board, v: nat, p: int, c: int, flags: seq<bool>, d: nat)
    requires d <= 4 && |flags| == 4 - d && 2 <= v <= p < |b0| - v
  {
    forall k {:trigger Nbr(v, p, k)} :: d <= k < 4 && flags[k - d] ==>
      b0[Nbr(v, p, k)] == Other(c) && forall j :: k < j < 4 ==> Nbr(v, p, j) !in Group(b0, v, Nbr(v, p, k))
  }

  lemma DoneNone(e: Env, b0: Board, g: Look, p: int, c: int, D: set<int>, w: Witness)
    requires Along(e, b0, g, p, c, 4, D, w)
    ensures Done(e, b0, g, p, c, 4, D, (g, []), w)
  {
    LoggedSame(g.pos, g.pos);
    assert D + {} == D;
  }

  lemma DoneMore(e: Env, b0: Board, g: Look, h: Look, flag: bool, p: int, c: int, d: nat, D: set<int>, D1: set<int>,
                 r: (Look, seq<bool>), w: Witness)
    requires d < 4 && |r.1| == 3 - d && 2 <= e.v <= p < |b0| - e.v
    requires D1 == if flag then D + Group(b0, e.v, Nbr(e.v, p, d)) else D
    requires Looked(e, g, h) && h.kostat == KoStep(b0, e.v, Nbr(e.v, p, d), c, flag, g.kostat)
    requires flag ==> b0[Nbr(e.v, p, d)] == Other(c)
    requires flag ==> forall j :: d < j < 4 ==> Nbr(e.v, p, j) !in Group(b0, e.v, Nbr(e.v, p, d))
    requires Done(e, b0, h, p, c, d + 1, D1, r, w)
    ensures Done(e, b0, g, p, c, d, D, (r.0, [flag] + r.1), w)
  {
    var flags := [flag] + r.1;
    assert flags[1..] == r.1;
    assert D1 + Taken(b0, e.v, p, r.1, d + 1) == D + Taken(b0, e.v, p, flags, d);
    LoggedTrans(g.pos, h.pos, r.0.pos);
    BalancedTrans(g.pos, h.pos, r.0.pos);
    forall k | d <= k < 4 && flags[k - d]
      ensures b0[Nbr(e.v, p, k)] == Other(c)
      ensures forall j :: k < j < 4 ==> Nbr(e.v, p, j) !in Group(b0, e.v, Nbr(e.v, p, k))
    {
      if k > d {
        assert flags[k - d] == r.1[k - (d + 1)];
      }
    }
  }

  lemma LookAroundNext(e: Env, g: Look, p: int, c: int, d: nat)
    requires LookShape(e, g) && 2 <= e.v <= p < |g.pos.board| - e.v && d < 4
    ensures var a := Neighbour(e, g, Nbr(e.v, p, d), c); var r := LookAround(e, a.0, p, c, d + 1);
            LookAround(e, g, p, c, d) == (r.0, [a.1] + r.1)
  {
  }

  lemma {:induction false} LookAroundScans(e: Env, b0: Board, g: Look, p: int, c: int, d: nat, D: set<int>, w: Witness)
    returns (w': Witness)
    requires Along(e, b0, g, p, c, d, D, w)
    ensures Done(e, b0, g, p, c, d, D, LookAround(e, g, p, c, d), w')
    decreases 4 - d
  {
    hide Neighbour, LookShape, Trees, WholeBut, OwesBut, Tallied, Looked;
    if d == 4 {
      w' := w;
      DoneNone(e, b0, g, p, c, D, w);
    } else {
      var n := Nbr(e.v, p, d);
      var a := Neighbour(e, g, n, c);
      var r := LookAround(e, a.0, p, c, d + 1);
      LookAroundNext(e, g, p, c, d);
      var D1 := if a.1 then D + Group(b0, e.v, n) else D;
      var w1 := NeighbourScansTo(e, b0, g, p, c, d, D, w, a, D1);
      assert a.1 ==> forall j :: d < j < 4 ==> Nbr(e.v, p, j) !in Group(b0, e.v, n);
      w' := LookAroundScans(e, b0, a.0, p, c, d + 1, D1, w1);
      DoneMore(e, b0, g, a.0, a.1, p, c, d, D, D1, r, w');
    }
  }
}
