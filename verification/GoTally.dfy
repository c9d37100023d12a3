/** What every flood keeps: the board becomes the repainted region, the hash
    stays the hash of the board, and captures balance the stones on the board. */
module GoTally {
  import opened GoBoard
  import opened GoEngine

  /** The stones whose key has bit i. */
  ghost function Keyed(e: Env, b: Board, i: nat): set<int> {
    set p | 0 <= p < |b| && IsStone(b[p]) && i in e.zob(p, b[p])
  }

  /** The hash is the exclusive or of the keys of all stones: a bit is one
      exactly when an odd number of stones have it in their key. */
  ghost predicate Tallied(e: Env, s: Pos) {
    forall i: nat :: i in s.hash <==> |Keyed(e, s.board, i)| % 2 == 1
  }

  lemma SameBoardSameHash(e: Env, s: Pos, t: Pos)
    requires Tallied(e, s) && Tallied(e, t) && s.board == t.board
    ensures s.hash == t.hash
  {
    forall i: nat
      ensures i in s.hash <==> i in t.hash
    {
      assert Keyed(e, s.board, i) == Keyed(e, t.board, i);
    }
  }

  // Captures against stones on the board -------------------------------------

  /** No stone appears or vanishes without being counted. */
  ghost predicate Balanced(s: Pos, t: Pos) {
    && |s.caps| == |t.caps| == 4
    && s.caps[BLACK] + Count(s.board, BLACK) == t.caps[BLACK] + Count(t.board, BLACK)
    && s.caps[WHITE] + Count(s.board, WHITE) == t.caps[WHITE] + Count(t.board, WHITE)
    && s.caps[0] == t.caps[0] && s.caps[3] == t.caps[3]
  }

  lemma BalancedTrans(s: Pos, t: Pos, u: Pos)
    requires Balanced(s, t) && Balanced(t, u)
    ensures Balanced(s, u)
  {
  }

  lemma KeyedUpdate(e: Env, b: Board, p: int, c: int, x: int, i: nat)
    requires 0 <= p < |b| && IsStone(c) && ((b[p] == c && x == EMPTY) || (b[p] == EMPTY && x == c))
    ensures |Keyed(e, b[p := x], i)| == |Keyed(e, b, i)| + if i !in e.zob(p, c) then 0 else if x == c then 1 else -1
  {
    var K := Keyed(e, b, i);
    if i !in e.zob(p, c) {
      assert Keyed(e, b[p := x], i) == K;
    } else if x == c {
      assert Keyed(e, b[p := x], i) == K + {p};
    } else {
      assert Keyed(e, b[p := x], i) == K - {p};
    }
  }

  lemma PaintHash(e: Env, s: Pos, p: int, c: int, x: int, gain: int)
    requires 0 <= p < |s.board| && |s.caps| == 4 && IsStone(c) && Tallied(e, s)
    requires (s.board[p] == c && x == EMPTY) || (s.board[p] == EMPTY && x == c)
    ensures Tallied(e, Paint(e, s, p, c, x, gain))
  {
    forall i: nat
      ensures i in Xor(s.hash, e.zob(p, c)) <==> |Keyed(e, s.board[p := x], i)| % 2 == 1
    {
      KeyedUpdate(e, s.board, p, c, x, i);
    }
  }

  lemma PaintBalance(e: Env, s: Pos, p: int, c: int, x: int, gain: int)
    requires 0 <= p < |s.board| && |s.caps| == 4 && IsStone(c)
    requires (s.board[p] == c && x == EMPTY && gain == 1) || (s.board[p] == EMPTY && x == c && gain == -1)
    ensures var r := Paint(e, s, p, c, x, gain);
            && Balanced(s, r)
            && Count(r.board, c) == Count(s.board, c) - gain
            && Count(r.board, EMPTY) == Count(s.board, EMPTY) + gain
  {
    CountUpdate(s.board, p, x, BLACK);
    CountUpdate(s.board, p, x, WHITE);
    CountUpdate(s.board, p, x, EMPTY);
  }

  lemma PaintTallied(e: Env, s: Pos, p: int, c: int, x: int, gain: int)
    requires 0 <= p < |s.board| && |s.caps| == 4 && IsStone(c) && Tallied(e, s)
    requires (s.board[p] == c && x == EMPTY && gain == 1) || (s.board[p] == EMPTY && x == c && gain == -1)
    ensures var r := Paint(e, s, p, c, x, gain);
            && Tallied(e, r)
            && Balanced(s, r)
            && Count(r.board, c) == Count(s.board, c) - gain
            && Count(r.board, EMPTY) == Count(s.board, EMPTY) + gain
  {
    PaintHash(e, s, p, c, x, gain);
    PaintBalance(e, s, p, c, x, gain);
  }

  /** A capture, and each of its parts, keeps the hash and the balance, and
      leaves the board that the flood of its region leaves. */
  ghost predicate Flooded(e: Env, s: Pos, r: Pos) {
    Tallied(e, r) && Balanced(s, r)
  }

  lemma {:induction false} CaptureTallied(e: Env, s: Pos, p: int, c: int)
    requires Shape(e, s) && 0 <= p < |s.board| && IsStone(c) && Tallied(e, s)
    ensures var r := Capture(e, s, p, c);
            && Flooded(e, s, r.0)
            && r.1 == Count(s.board, c) - Count(r.0.board, c)
            && r.0.board == Flood(s.board, e.v, p, c, EMPTY)
    decreases Count(s.board, c), 0
  {
    if s.board[p] == c {
      PaintTallied(e, s, p, c, EMPTY, 1);
      CaptureAroundTallied(e, Paint(e, s, p, c, EMPTY, 1), p, c, 0);
      FloodIsRepaint(s.board, e.v, p, EMPTY);
    }
  }

  lemma {:induction false} CaptureAroundTallied(e: Env, s: Pos, p: int, c: int, d: nat)
    requires Shape(e, s) && 2 <= e.v <= p < |s.board| - e.v && d <= 4 && IsStone(c) && Tallied(e, s)
    ensures var r := CaptureAround(e, s, p, c, d);
            && Flooded(e, s, r.0)
            && r.1 == Count(s.board, c) - Count(r.0.board, c)
            && r.0.board == FloodAround(s.board, e.v, p, c, EMPTY, d)
    decreases Count(s.board, c), 5 - d
  {
    if d < 4 {
      var n := Nbr(e.v, p, d);
      var a := Capture(e, s, n, c);
      var r := CaptureAround(e, a.0, p, c, d + 1);
      assert CaptureAround(e, s, p, c, d) == (r.0, a.1 + r.1);
      CaptureTallied(e, s, n, c);
      CaptureAroundTallied(e, a.0, p, c, d + 1);
      BalancedTrans(s, a.0, r.0);
    }
  }

  lemma {:induction false} FillTallied(e: Env, s: Pos, p: int, c: int)
    requires Shape(e, s) && 0 <= p < |s.board| && IsStone(c) && Tallied(e, s)
    ensures var r := Fill(e, s, p, c);
            && Flooded(e, s, r)
            && r.board == Flood(s.board, e.v, p, EMPTY, c)
            && r.uf == s.uf && r.log == s.log
    decreases Count(s.board, EMPTY), 0
  {
    if s.board[p] == EMPTY {
      PaintTallied(e, s, p, c, c, -1);
      FillAroundTallied(e, Paint(e, s, p, c, c, -1), p, c, 0);
      FloodIsRepaint(s.board, e.v, p, c);
    }
  }

  lemma {:induction false} FillAroundTallied(e: Env, s: Pos, p: int, c: int, d: nat)
    requires Shape(e, s) && 2 <= e.v <= p < |s.board| - e.v && d <= 4 && IsStone(c) && Tallied(e, s)
    ensures var r := FillAround(e, s, p, c, d);
            && Flooded(e, s, r)
            && r.board == FloodAround(s.board, e.v, p, EMPTY, c, d)
            && r.uf == s.uf && r.log == s.log
    decreases Count(s.board, EMPTY), 5 - d
  {
    if d < 4 {
      var n := Nbr(e.v, p, d);
      var a := Fill(e, s, n, c);
      var r := FillAround(e, a, p, c, d + 1);
      assert FillAround(e, s, p, c, d) == r;
      FillTallied(e, s, n, c);
      FillAroundTallied(e, a, p, c, d + 1);
      BalancedTrans(s, a, r);
    }
  }
}
