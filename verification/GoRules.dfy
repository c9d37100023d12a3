/** The rules of Go in their naive form, stated over whole boards: a group is
    what is connected, it is dead when none of its stones touches an empty
    point, and a move places a stone, removes the dead groups of the opponent
    and then the dead groups of the player. */
module GoRules {
  import opened GoBoard

  ghost predicate HasLiberty(b: Board, v: nat, p: int) {
    exists q, r :: Conn(b, v, p, q) && Adj(v, q, r) && 0 <= r < |b| && b[r] == EMPTY
  }

  ghost function RemoveDead(b: Board, v: nat, c: int): (r: Board)
    ensures |r| == |b|
  {
    seq(|b|, q requires 0 <= q < |b| => if b[q] == c && !HasLiberty(b, v, q) then EMPTY else b[q])
  }

  ghost function PlayOn(b: Board, v: nat, p: int, c: int): (r: Board)
    requires 0 <= p < |b|
    ensures |r| == |b|
  {
    RemoveDead(RemoveDead(b[p := c], v, Other(c)), v, c)
  }

  ghost predicate AllAlive(b: Board, v: nat) {
    forall q :: 0 <= q < |b| && IsStone(b[q]) ==> HasLiberty(b, v, q)
  }

  // Sets of dead groups -----------------------------------------------------

  ghost function Emptied(b: Board, D: set<int>): (r: Board)
    ensures |r| == |b|
  {
    seq(|b|, q requires 0 <= q < |b| => if q in D then EMPTY else b[q])
  }

  /** D is a union of whole c-coloured groups of b, none of which has a liberty. */
  ghost predicate DeadSet(b: Board, v: nat, c: int, D: set<int>) {
    && (forall x :: x in D ==> 0 <= x < |b| && b[x] == c)
    && Closed(b, v, c, D)
    && (forall x, y :: x in D && Adj(v, x, y) && 0 <= y < |b| ==> b[y] != EMPTY)
  }

  lemma DeadHasNoLiberty(b: Board, v: nat, c: int, D: set<int>, x: int)
    requires DeadSet(b, v, c, D) && x in D
    ensures !HasLiberty(b, v, x)
  {
    if HasLiberty(b, v, x) {
      var q, r :| Conn(b, v, x, q) && Adj(v, q, r) && 0 <= r < |b| && b[r] == EMPTY;
      ConnClosed(b, v, D, x, q);
    }
  }

  lemma RemoveDeadIsEmptied(b: Board, v: nat, c: int, D: set<int>)
    requires DeadSet(b, v, c, D)
    requires forall q :: 0 <= q < |b| && b[q] == c && q !in D ==> HasLiberty(b, v, q)
    ensures RemoveDead(b, v, c) == Emptied(b, D)
  {
    forall q | 0 <= q < |b|
      ensures RemoveDead(b, v, c)[q] == Emptied(b, D)[q]
    {
      if q in D {
        DeadHasNoLiberty(b, v, c, D, q);
      }
    }
  }

  /** Emptying D leaves the other groups of its colour as they were. */
  lemma GroupOutside(b: Board, v: nat, c: int, D: set<int>, n: int, q: int)
    requires 0 <= n < |b| && b[n] == c != EMPTY && n !in D
    requires Closed(b, v, c, D) && forall x :: x in D ==> 0 <= x < |b| && b[x] == c
    ensures Conn(Emptied(b, D), v, n, q) <==> Conn(b, v, n, q)
    ensures Conn(b, v, n, q) ==> q !in D
  {
    var b' := Emptied(b, D);
    if Conn(b', v, n, q) {
      ConnMono(b', b, v, n, q);
    }
    if Conn(b, v, n, q) {
      var T := set x | 0 <= x < |b| && x !in D && Conn(b', v, n, x);
      ConnSelf(b', v, n);
      forall x, y | x in T && Adj(v, x, y) && 0 <= y < |b| && b[y] == c
        ensures y in T
      {
        assert Adj(v, y, x);
        ConnStep(b', v, n, x, y);
      }
      ConnClosed(b, v, T, n, q);
    }
  }

  lemma CaptureMore(b: Board, v: nat, c: int, D: set<int>, n: int)
    requires 0 <= n < |b| && b[n] == c != EMPTY && n !in D
    requires Closed(b, v, c, D) && forall x :: x in D ==> 0 <= x < |b| && b[x] == c
    ensures Repaint(Emptied(b, D), v, n, EMPTY) == Emptied(b, D + Group(b, v, n))
    ensures Closed(b, v, c, D + Group(b, v, n))
  {
    forall q | 0 <= q < |b|
      ensures Repaint(Emptied(b, D), v, n, EMPTY)[q] == Emptied(b, D + Group(b, v, n))[q]
    {
      GroupOutside(b, v, c, D, n, q);
    }
    GroupClosed(b, v, n);
  }

  /** Filling the empty region at a captured point puts back exactly its group. */
  lemma FillBack(b: Board, v: nat, c: int, D: set<int>, n: int)
    requires DeadSet(b, v, c, D) && n in D && c != EMPTY
    ensures Repaint(Emptied(b, D), v, n, c) == Emptied(b, D - Group(b, v, n))
    ensures DeadSet(b, v, c, D - Group(b, v, n))
  {
    var b' := Emptied(b, D);
    var G := Group(b, v, n);
    GroupClosed(b, v, n);
    forall q | 0 <= q < |b|
      ensures Conn(b', v, n, q) <==> q in G
    {
      if Conn(b', v, n, q) {
        var T := G * D;
        assert Closed(b', v, EMPTY, T);
        ConnClosed(b', v, T, n, q);
      }
      if Conn(b, v, n, q) {
        var T := set x | 0 <= x < |b| && x in D && Conn(b', v, n, x);
        ConnSelf(b', v, n);
        forall x, y | x in T && Adj(v, x, y) && 0 <= y < |b| && b[y] == c
          ensures y in T
        {
          ConnStep(b', v, n, x, y);
        }
        ConnClosed(b, v, T, n, q);
      }
    }
    forall q | 0 <= q < |b|
      ensures Repaint(b', v, n, c)[q] == Emptied(b, D - G)[q]
    {
      if q in G {
        assert q in D by { ConnClosed(b, v, D, n, q); }
      }
    }
    var E := D - G;
    forall x, y | x in E && Adj(v, x, y) && 0 <= y < |b| && b[y] == c
      ensures y in E
    {
      if y in G {
        assert Adj(v, y, x);
        ConnStep(b, v, n, y, x);
      }
    }
  }
}
