/** The board of the Go engine: one flat sequence of points with a border of
    EDGE points, the row stride being the width plus one, and connectedness of
    equally coloured points on it. */
module GoBoard {
  const EDGE := -1
  const EMPTY := 0
  const BLACK := 1
  const WHITE := 2

  type Board = seq<int>

  function Other(c: int): int {
    BLACK + WHITE - c
  }

  predicate IsStone(x: int) {
    x == BLACK || x == WHITE
  }

  /** Every point that is not EDGE has its four neighbours on the array. */
  ghost predicate Framed(b: Board, v: nat) {
    forall p {:trigger b[p]} :: 0 <= p < |b| && b[p] != EDGE ==> 2 <= v <= p < |b| - v
  }

  ghost predicate Coloured(b: Board) {
    forall p {:trigger b[p]} :: 0 <= p < |b| ==> b[p] == EDGE || b[p] == EMPTY || IsStone(b[p])
  }

  /** The four directions in the order in which the engine looks at them. */
  function Nbr(v: nat, p: int, d: nat): (n: int)
    ensures 2 <= v ==> p - v <= n <= p + v
  {
    if d == 0 then p - v else if d == 1 then p - 1 else if d == 2 then p + 1 else p + v
  }

  predicate Adj(v: nat, p: int, q: int) {
    q == p - v || q == p - 1 || q == p + 1 || q == p + v
  }

  /** q is n steps away from p over adjacent points of p's colour. */
  ghost predicate Reach(b: Board, v: nat, p: int, q: int, n: nat)
    decreases n
  {
    && 0 <= p < |b| && 0 <= q < |b| && b[q] == b[p]
    && if n == 0 then q == p
      else exists r {:trigger Reach(b, v, p, r, n - 1)} :: Reach(b, v, p, r, n - 1) && Adj(v, r, q)
  }

  /** q can be reached from p over adjacent points of p's colour. */
  ghost predicate Conn(b: Board, v: nat, p: int, q: int) {
    exists n: nat :: Reach(b, v, p, q, n)
  }

  ghost function Group(b: Board, v: nat, p: int): set<int> {
    set q | 0 <= q < |b| && Conn(b, v, p, q)
  }

  /** S contains every c-coloured point next to one of its members. */
  ghost predicate Closed(b: Board, v: nat, c: int, S: set<int>) {
    forall x, y :: x in S && Adj(v, x, y) && 0 <= y < |b| && b[y] == c ==> y in S
  }

  lemma ConnSelf(b: Board, v: nat, p: int)
    requires 0 <= p < |b|
    ensures Conn(b, v, p, p)
  {
    assert Reach(b, v, p, p, 0);
  }

  lemma ConnInside(b: Board, v: nat, p: int, q: int)
    requires Conn(b, v, p, q)
    ensures 0 <= p < |b| && 0 <= q < |b| && b[p] == b[q]
  {
  }

  lemma ConnStep(b: Board, v: nat, p: int, q: int, r: int)
    requires Conn(b, v, p, q) && Adj(v, q, r) && 0 <= r < |b| && b[r] == b[p]
    ensures Conn(b, v, p, r)
  {
    var n: nat :| Reach(b, v, p, q, n);
    assert Reach(b, v, p, r, n + 1);
  }

  lemma {:induction false} ReachCons(b: Board, v: nat, p: int, q: int, r: int, n: nat)
    requires Reach(b, v, q, r, n) && Adj(v, p, q) && 0 <= p < |b| && b[p] == b[q]
    ensures Reach(b, v, p, r, n + 1)
    decreases n
  {
    if n == 0 {
      assert Reach(b, v, p, p, 0);
    } else {
      var x :| Reach(b, v, q, x, n - 1) && Adj(v, x, r);
      ReachCons(b, v, p, q, x, n - 1);
    }
  }

  lemma ConnCons(b: Board, v: nat, p: int, q: int, r: int)
    requires Conn(b, v, q, r) && Adj(v, p, q) && 0 <= p < |b| && b[p] == b[q]
    ensures Conn(b, v, p, r)
  {
    var n: nat :| Reach(b, v, q, r, n);
    ReachCons(b, v, p, q, r, n);
  }

  lemma {:induction false} ReachStaysIn(b: Board, v: nat, S: set<int>, p: int, q: int, n: nat)
    requires Reach(b, v, p, q, n) && p in S && Closed(b, v, b[p], S)
    ensures q in S
    decreases n
  {
    if n > 0 {
      var r :| Reach(b, v, p, r, n - 1) && Adj(v, r, q);
      ReachStaysIn(b, v, S, p, r, n - 1);
    }
  }

  /** A closed set that contains p contains everything connected to p. */
  lemma ConnClosed(b: Board, v: nat, S: set<int>, p: int, q: int)
    requires Conn(b, v, p, q) && p in S && Closed(b, v, b[p], S)
    ensures q in S
  {
    var n: nat :| Reach(b, v, p, q, n);
    ReachStaysIn(b, v, S, p, q, n);
  }

  lemma ConnTrans(b: Board, v: nat, p: int, q: int, r: int)
    requires Conn(b, v, p, q) && Conn(b, v, q, r)
    ensures Conn(b, v, p, r)
  {
    GroupClosed(b, v, p);
    ConnClosed(b, v, Group(b, v, p), q, r);
  }

  lemma GroupClosed(b: Board, v: nat, p: int)
    requires 0 <= p < |b|
    ensures p in Group(b, v, p) && Closed(b, v, b[p], Group(b, v, p))
  {
    ConnSelf(b, v, p);
    forall x, y | x in Group(b, v, p) && Adj(v, x, y) && 0 <= y < |b| && b[y] == b[p]
      ensures y in Group(b, v, p)
    {
      ConnStep(b, v, p, x, y);
    }
  }

  lemma ConnSym(b: Board, v: nat, p: int, q: int)
    requires Conn(b, v, p, q)
    ensures Conn(b, v, q, p)
  {
    var S := set x | 0 <= x < |b| && Conn(b, v, x, p);
    ConnSelf(b, v, p);
    forall x, y | x in S && Adj(v, x, y) && 0 <= y < |b| && b[y] == b[p]
      ensures y in S
    {
      ConnCons(b, v, y, x, p);
    }
    ConnClosed(b, v, S, p, q);
  }

  lemma {:induction false} ReachMono(b: Board, b': Board, v: nat, p: int, q: int, n: nat)
    requires Reach(b, v, p, q, n) && |b'| == |b|
    requires forall x {:trigger b'[x]} :: 0 <= x < |b| && b[x] == b[p] ==> b'[x] == b[p]
    ensures Reach(b', v, p, q, n)
    decreases n
  {
    if n > 0 {
      var r :| Reach(b, v, p, r, n - 1) && Adj(v, r, q);
      ReachMono(b, b', v, p, r, n - 1);
    }
  }

  /** A connection survives on any board that keeps the points of its colour. */
  lemma ConnMono(b: Board, b': Board, v: nat, p: int, q: int)
    requires Conn(b, v, p, q) && |b'| == |b|
    requires forall x {:trigger b'[x]} :: 0 <= x < |b| && b[x] == b[p] ==> b'[x] == b[p]
    ensures Conn(b', v, p, q)
  {
    var n: nat :| Reach(b, v, p, q, n);
    ReachMono(b, b', v, p, q, n);
  }

  lemma GroupsMeet(b: Board, v: nat, p: int, q: int, x: int)
    requires Conn(b, v, p, x) && Conn(b, v, q, x)
    ensures Group(b, v, p) == Group(b, v, q)
  {
    ConnSym(b, v, p, x);
    ConnSym(b, v, q, x);
    forall y | 0 <= y < |b|
      ensures Conn(b, v, p, y) <==> Conn(b, v, q, y)
    {
      if Conn(b, v, p, y) {
        ConnTrans(b, v, x, p, y);
        ConnTrans(b, v, q, x, y);
      }
      if Conn(b, v, q, y) {
        ConnTrans(b, v, x, q, y);
        ConnTrans(b, v, p, x, y);
      }
    }
  }

  /** The board with every point connected to p painted x. */
  ghost function Repaint(b: Board, v: nat, p: int, x: int): (r: Board)
    ensures |r| == |b|
  {
    seq(|b|, q requires 0 <= q < |b| => if Conn(b, v, p, q) then x else b[q])
  }

  /** One step of the four recursive floods: repaint the region at q if it has colour c. */
  ghost function Flood(b: Board, v: nat, q: int, c: int, x: int): (r: Board)
    requires 0 <= q < |b|
    ensures |r| == |b|
  {
    if b[q] == c then Repaint(b, v, q, x) else b
  }

  /** Flooding from the neighbours of p in directions d to 3, each flood seeing
      what the earlier ones left. */
  ghost function FloodAround(b: Board, v: nat, p: int, c: int, x: int, d: nat): (r: Board)
    requires d <= 4 && 2 <= v <= p < |b| - v
    ensures |r| == |b|
    decreases 4 - d
  {
    if d == 4 then b else FloodAround(Flood(b, v, Nbr(v, p, d), c, x), v, p, c, x, d + 1)
  }

  /** bi differs from b only in points connected to p, and what was painted,
      except p itself, has no unpainted neighbour of colour c left. */
  ghost predicate Painting(b: Board, bi: Board, v: nat, p: int, x: int)
    requires 0 <= p < |b|
  {
    && |bi| == |b|
    && bi[p] == x
    && (forall y {:trigger bi[y]} :: 0 <= y < |b| && bi[y] != b[y] ==> bi[y] == x && Conn(b, v, p, y))
    && (forall y, z {:trigger Adj(v, y, z)} ::
          0 <= y < |b| && 0 <= z < |b| && y != p && bi[y] != b[y] && Adj(v, y, z) ==>
      bi[z] != b[p])
  }

  lemma FloodKeepsPainting(b: Board, bi: Board, v: nat, p: int, n: int, x: int)
    requires 0 <= p < |b| && 0 <= n < |b| && Adj(v, p, n) && x != b[p]
    requires Painting(b, bi, v, p, x)
    ensures var r := Flood(bi, v, n, b[p], x);
            && Painting(b, r, v, p, x)
            && r[n] != b[p]
            && forall y :: 0 <= y < |b| && bi[y] != b[p] ==> r[y] != b[p]
  {
    var c := b[p];
    var r := Flood(bi, v, n, c, x);
    ConnSelf(b, v, p);
    ConnSelf(bi, v, n);
    if bi[n] == c {
      forall y | 0 <= y < |b| && Conn(bi, v, n, y)
        ensures Conn(b, v, p, y)
      {
        ConnMono(bi, b, v, n, y);
        ConnCons(b, v, p, n, y);
      }
      forall y, z | 0 <= y < |b| && 0 <= z < |b| && Conn(bi, v, n, y) && Adj(v, y, z) && bi[z] == c
        ensures Conn(bi, v, n, z)
      {
        ConnStep(bi, v, n, y, z);
      }
    }
  }

  lemma {:induction false} PaintingAround(b: Board, bi: Board, v: nat, p: int, x: int, d: nat)
    requires 2 <= v <= p < |b| - v && d <= 4 && x != b[p] && Painting(b, bi, v, p, x)
    requires forall k :: 0 <= k < d ==> bi[Nbr(v, p, k)] != b[p]
    ensures FloodAround(bi, v, p, b[p], x, d) == Repaint(b, v, p, x)
    decreases 4 - d
  {
    if d == 4 {
      forall n | 0 <= n < |b| && Adj(v, p, n)
        ensures bi[n] != b[p]
      {
        assert n == Nbr(v, p, 0) || n == Nbr(v, p, 1) || n == Nbr(v, p, 2) || n == Nbr(v, p, 3);
      }
      PaintingDone(b, bi, v, p, x);
    } else {
      FloodKeepsPainting(b, bi, v, p, Nbr(v, p, d), x);
      PaintingAround(b, Flood(bi, v, Nbr(v, p, d), b[p], x), v, p, x, d + 1);
    }
  }

  /** Painting p and then flooding around it paints exactly the region of p. */
  lemma FloodIsRepaint(b: Board, v: nat, p: int, x: int)
    requires 2 <= v <= p < |b| - v && x != b[p]
    ensures FloodAround(b[p := x], v, p, b[p], x, 0) == Repaint(b, v, p, x)
  {
    ConnSelf(b, v, p);
    PaintingAround(b, b[p := x], v, p, x, 0);
  }

  lemma PaintingDone(b: Board, bi: Board, v: nat, p: int, x: int)
    requires 0 <= p < |b| && x != b[p] && Painting(b, bi, v, p, x)
    requires forall n :: 0 <= n < |b| && Adj(v, p, n) ==> bi[n] != b[p]
    ensures bi == Repaint(b, v, p, x)
  {
    var T := set q | 0 <= q < |b| && b[q] == b[p] && bi[q] != b[p];
    assert Closed(b, v, b[p], T);
    forall q | 0 <= q < |b|
      ensures bi[q] == Repaint(b, v, p, x)[q]
    {
      if Conn(b, v, p, q) {
        ConnClosed(b, v, T, p, q);
      }
    }
  }
}
