/** The ko rule: the point that a move leaves barred is exactly the point at
    which an immediate answer would bring back the board before the move. */
module GoKo {
  import opened GoBoard
  import opened GoRules
  import opened GoEngine
  import opened GoTally
  import opened GoForest
  import opened GoMove
  import opened GoPlay
  import opened GoHistory

  /** Every group of a sound position has a liberty. */
  lemma SoundAlive(e: Env, s: Pos)
    requires Sound(e, s)
    ensures AllAlive(s.board, e.v)
  {
    var w :| Standing(s.board, e.v, s.uf, w);
    forall q | 0 <= q < |s.board| && IsStone(s.board[q])
      ensures HasLiberty(s.board, e.v, q)
    {
      assert IsRoot(s.board, w, s.board[q], w.rep[q]);
      TreeAlive(s.board, e.v, s.uf, w, s.board[q], q);
    }
  }

  /** The stone at p took exactly the single stone at q and is otherwise shut in
      by the edge and by living enemy groups. */
  ghost predicate KoShape(b0: Board, v: nat, p: int, c: int, q: int)
    requires 2 <= v <= p < |b0| - v
  {
    && 0 <= q < |b0| && b0[q] == Other(c) && !HasLiberty(b0, v, q) && Group(b0, v, q) == {q}
    && (exists i: nat :: i < 4 && Nbr(v, p, i) == q)
    && forall i: nat :: i < 4 && Nbr(v, p, i) != q ==> Walled(b0, v, c, Nbr(v, p, i))
  }

  ghost predicate Walled(b0: Board, v: nat, c: int, n: int)
    requires 0 <= n < |b0|
  {
    b0[n] == EDGE || (b0[n] == Other(c) && HasLiberty(b0, v, n))
  }

  // What the scan stores -------------------------------------------------------------

  /** The scan of an uneventful neighbour leaves the ko state alone. */
  ghost predicate Quiet(b0: Board, c: int, n: int, flag: bool)
    requires 0 <= n < |b0|
  {
    b0[n] == EDGE || (b0[n] == Other(c) && !flag)
  }

  lemma KoAfterUnrolled(b0: Board, v: nat, p: int, c: int, flags: seq<bool>)
    requires |flags| == 4 && 2 <= v <= p < |b0| - v
    ensures var k1 := KoStep(b0, v, Nbr(v, p, 0), c, flags[0], 0);
            var k2 := KoStep(b0, v, Nbr(v, p, 1), c, flags[1], k1);
            var k3 := KoStep(b0, v, Nbr(v, p, 2), c, flags[2], k2);
            KoAfter(b0, v, p, c, flags, 0, 0) == KoStep(b0, v, Nbr(v, p, 3), c, flags[3], k3)
  {
    hide KoStep;
    var k1 := KoStep(b0, v, Nbr(v, p, 0), c, flags[0], 0);
    var k2 := KoStep(b0, v, Nbr(v, p, 1), c, flags[1], k1);
    var k3 := KoStep(b0, v, Nbr(v, p, 2), c, flags[2], k2);
    var f1, f2, f3 := flags[1..], flags[1..][1..], flags[1..][1..][1..];
    assert KoAfter(b0, v, p, c, flags, 0, 0) == KoAfter(b0, v, p, c, f1, 1, k1);
    assert KoAfter(b0, v, p, c, f1, 1, k1) == KoAfter(b0, v, p, c, f2, 2, k2);
    assert KoAfter(b0, v, p, c, f2, 2, k2) == KoAfter(b0, v, p, c, f3, 3, k3);
  }

  lemma KoStepIs(b0: Board, v: nat, n: int, c: int, flag: bool, k: int, q: int)
    requires 0 <= n < |b0| && (n == 0 ==> b0[n] == EDGE) && q > 0 && IsStone(c) && (flag ==> b0[n] == Other(c))
    ensures KoStep(b0, v, n, c, flag, k) == q <==>
            (k == q && Quiet(b0, c, n, flag)) || (k == 0 && flag && n == q && |Group(b0, v, n)| == 1)
    ensures KoStep(b0, v, n, c, flag, k) == 0 <==> k == 0 && Quiet(b0, c, n, flag)
  {
  }

  /** A ko point is stored exactly when one neighbour was captured as a single
      stone and the others were uneventful. */
  lemma KoAfterIs(b0: Board, v: nat, p: int, c: int, flags: seq<bool>, q: int)
    requires |flags| == 4 && 2 <= v <= p < |b0| - v && q > 0 && IsStone(c)
    requires b0[0] == EDGE
    requires forall k :: 0 <= k < 4 && flags[k] ==> b0[Nbr(v, p, k)] == Other(c)
    ensures KoAfter(b0, v, p, c, flags, 0, 0) == q <==> exists i: nat :: OnlyTaken(b0, v, p, c, flags, i, q)
  {
    KoAfterUnrolled(b0, v, p, c, flags);
    var n0, n1, n2, n3 := Nbr(v, p, 0), Nbr(v, p, 1), Nbr(v, p, 2), Nbr(v, p, 3);
    var k1 := KoStep(b0, v, n0, c, flags[0], 0);
    var k2 := KoStep(b0, v, n1, c, flags[1], k1);
    var k3 := KoStep(b0, v, n2, c, flags[2], k2);
    KoStepIs(b0, v, n0, c, flags[0], 0, q);
    KoStepIs(b0, v, n1, c, flags[1], k1, q);
    KoStepIs(b0, v, n2, c, flags[2], k2, q);
    KoStepIs(b0, v, n3, c, flags[3], k3, q);
    OnlyTakenSplits(b0, v, p, c, flags, q);
  }

  lemma OnlyTakenSplits(b0: Board, v: nat, p: int, c: int, flags: seq<bool>, q: int)
    requires |flags| == 4 && 2 <= v <= p < |b0| - v
    ensures var n0, n1, n2, n3 := Nbr(v, p, 0), Nbr(v, p, 1), Nbr(v, p, 2), Nbr(v, p, 3);
            var q0, q1 := Quiet(b0, c, n0, flags[0]), Quiet(b0, c, n1, flags[1]);
            var q2, q3 := Quiet(b0, c, n2, flags[2]), Quiet(b0, c, n3, flags[3]);
            (exists i: nat :: OnlyTaken(b0, v, p, c, flags, i, q)) <==>
              0 <= q < |b0| && |Group(b0, v, q)| == 1 &&
              ((q == n0 && flags[0] && q1 && q2 && q3) || (q == n1 && flags[1] && q0 && q2 && q3) ||
               (q == n2 && flags[2] && q0 && q1 && q3) || (q == n3 && flags[3] && q0 && q1 && q2))
  {
    hide Quiet, Group;
    assert OnlyTaken(b0, v, p, c, flags, 0, q) || true;
    assert OnlyTaken(b0, v, p, c, flags, 1, q) || true;
    assert OnlyTaken(b0, v, p, c, flags, 2, q) || true;
    assert OnlyTaken(b0, v, p, c, flags, 3, q) || true;
  }

  ghost predicate OnlyTaken(b0: Board, v: nat, p: int, c: int, flags: seq<bool>, i: nat, q: int)
    requires |flags| == 4 && 2 <= v <= p < |b0| - v
  {
    && i < 4 && q == Nbr(v, p, i) && flags[i] && |Group(b0, v, q)| == 1
    && forall j: nat {:trigger Nbr(v, p, j)} :: j < 4 && j != i ==> Quiet(b0, c, Nbr(v, p, j), flags[j])
  }

  /** The last direction that leads to a dead enemy group is flagged. */
  lemma {:induction false} DeadIsFlagged(b0: Board, v: nat, p: int, c: int, flags: seq<bool>, k: nat) returns (j: nat)
    requires |flags| == 4 && 2 <= v <= p < |b0| - v && k < 4
    requires forall i: nat :: i < 4 ==> (flags[i] <==> Takes(b0, v, p, c, i))
    requires b0[Nbr(v, p, k)] == Other(c) && !HasLiberty(b0, v, Nbr(v, p, k))
    ensures j < 4 && flags[j] && Conn(b0, v, Nbr(v, p, k), Nbr(v, p, j))
    decreases 4 - k
  {
    var n := Nbr(v, p, k);
    if flags[k] {
      ConnSelf(b0, v, n);
      j := k;
    } else {
      var i: nat :| k < i < 4 && Nbr(v, p, i) in Group(b0, v, n);
      var n' := Nbr(v, p, i);
      ConnInside(b0, v, n, n');
      ConnDead(b0, v, n, n');
      j := DeadIsFlagged(b0, v, p, c, flags, i);
      ConnTrans(b0, v, n, n', Nbr(v, p, j));
    }
  }

  lemma ConnDead(b: Board, v: nat, n: int, x: int)
    requires Conn(b, v, n, x) && !HasLiberty(b, v, n)
    ensures !HasLiberty(b, v, x)
  {
    if HasLiberty(b, v, x) {
      var q, r :| Conn(b, v, x, q) && Adj(v, q, r) && 0 <= r < |b| && b[r] == EMPTY;
      ConnTrans(b, v, n, x, q);
    }
  }

  lemma OnlyTakenIsKoShape(b0: Board, v: nat, p: int, c: int, flags: seq<bool>, q: int)
    requires |flags| == 4 && 2 <= v <= p < |b0| - v && IsStone(c)
    requires forall i: nat :: i < 4 ==> (flags[i] <==> Takes(b0, v, p, c, i))
    ensures (exists i: nat :: OnlyTaken(b0, v, p, c, flags, i, q)) <==> KoShape(b0, v, p, c, q)
  {
    if i: nat :| OnlyTaken(b0, v, p, c, flags, i, q) {
      ConnSelf(b0, v, q);
      Singleton(Group(b0, v, q), q);
      forall j: nat | j < 4 && Nbr(v, p, j) != q
        ensures Walled(b0, v, c, Nbr(v, p, j))
      {
        assert Quiet(b0, c, Nbr(v, p, j), flags[j]);
        if b0[Nbr(v, p, j)] == Other(c) && !HasLiberty(b0, v, Nbr(v, p, j)) {
          var l := DeadIsFlagged(b0, v, p, c, flags, j);
          assert l == i;
          SingleConn(b0, v, Nbr(v, p, j), q);
        }
      }
      assert KoShape(b0, v, p, c, q);
    }
    if KoShape(b0, v, p, c, q) {
      var i: nat :| i < 4 && Nbr(v, p, i) == q;
      forall j: nat | j < 4 && j != i
        ensures Quiet(b0, c, Nbr(v, p, j), flags[j])
      {
        assert Nbr(v, p, j) != q;
        assert Walled(b0, v, c, Nbr(v, p, j));
      }
      assert Takes(b0, v, p, c, i);
      assert OnlyTaken(b0, v, p, c, flags, i, q);
    }
  }

  lemma Singleton(S: set<int>, x: int)
    requires |S| == 1 && x in S
    ensures S == {x}
  {
    assert |S - {x}| == 0;
  }

  lemma SingleConn(b: Board, v: nat, x: int, q: int)
    requires Group(b, v, q) == {q} && Conn(b, v, x, q)
    ensures x == q
  {
    ConnSym(b, v, x, q);
    ConnInside(b, v, x, q);
    assert x in Group(b, v, q);
  }

  // What the answer does ---------------------------------------------------------------

  /** A group that dies when p is played was next to p. */
  lemma DyingTouches(b: Board, v: nat, p: int, c: int, x: int)
    requires 2 <= v <= p < |b| - v && b[p] == EMPTY && IsStone(c) && AllAlive(b, v)
    requires 0 <= x < |b| && IsStone(b[x]) && !HasLiberty(b[p := c], v, x)
    ensures exists y :: Conn(b[p := c], v, x, y) && Adj(v, y, p)
  {
    var b0 := b[p := c];
    var y, z :| Conn(b, v, x, y) && Adj(v, y, z) && 0 <= z < |b| && b[z] == EMPTY;
    ConnMono(b, b0, v, x, y);
    assert z == p;
  }

  lemma AdjIsNbr(v: nat, p: int, y: int)
    requires Adj(v, y, p) || Adj(v, p, y)
    ensures exists i: nat :: i < 4 && Nbr(v, p, i) == y
  {
    assert y == Nbr(v, p, 0) || y == Nbr(v, p, 1) || y == Nbr(v, p, 2) || y == Nbr(v, p, 3);
  }

  lemma AdjSym(v: nat, p: int, y: int)
    ensures Adj(v, p, y) <==> Adj(v, y, p)
  {
  }

  /** In the ko shape only the stone at q is removed. */
  lemma KoTakesOne(b: Board, v: nat, p: int, c: int, q: int)
    requires 2 <= v <= p < |b| - v && b[p] == EMPTY && IsStone(c) && AllAlive(b, v)
    requires KoShape(b[p := c], v, p, c, q)
    ensures RemoveDead(b[p := c], v, Other(c)) == b[p := c][q := EMPTY]
  {
    var b0 := b[p := c];
    forall x | 0 <= x < |b| && b0[x] == Other(c) && x != q
      ensures HasLiberty(b0, v, x)
    {
      if !HasLiberty(b0, v, x) {
        DyingTouches(b, v, p, c, x);
        var y :| Conn(b0, v, x, y) && Adj(v, y, p);
        ConnInside(b0, v, x, y);
        ConnDead(b0, v, x, y);
        AdjIsNbr(v, p, y);
        var i: nat :| i < 4 && Nbr(v, p, i) == y;
        assert y != q ==> Walled(b0, v, c, y);
        SingleConn(b0, v, x, q);
      }
    }
  }

  /** With no neighbour of its colour a stone is a group of its own. */
  lemma LonelyGroup(b: Board, v: nat, p: int)
    requires 0 <= p < |b| && forall y :: 0 <= y < |b| && Adj(v, p, y) ==> b[y] != b[p]
    ensures forall x :: Conn(b, v, p, x) ==> x == p
  {
    forall x | Conn(b, v, p, x)
      ensures x == p
    {
      assert Closed(b, v, b[p], {p});
      ConnClosed(b, v, {p}, p, x);
    }
  }

  /** Answering at q takes the stone at p and brings the old board back. */
  lemma KoReturns(b: Board, v: nat, p: int, c: int, q: int)
    requires 2 <= v <= p < |b| - v && b[p] == EMPTY && IsStone(c) && AllAlive(b, v)
    requires KoShape(b[p := c], v, p, c, q)
    ensures PlayOn(b[p := c][q := EMPTY], v, q, Other(c)) == b
  {
    var b0 := b[p := c];
    assert b0[q := EMPTY][q := Other(c)] == b0;
    forall y | 0 <= y < |b| && Adj(v, p, y)
      ensures b0[y] == EDGE || b0[y] == Other(c)
    {
      AdjIsNbr(v, p, y);
      var i: nat :| i < 4 && Nbr(v, p, i) == y;
      assert y != q ==> Walled(b0, v, c, y);
    }
    LonelyGroup(b0, v, p);
    assert !HasLiberty(b0, v, p);
    forall x | 0 <= x < |b| && b0[x] == c && x != p
      ensures HasLiberty(b0, v, x)
    {
      if !HasLiberty(b0, v, x) {
        DyingTouches(b, v, p, c, x);
        var y :| Conn(b0, v, x, y) && Adj(v, y, p);
        ConnInside(b0, v, x, y);
        AdjSym(v, p, y);
      }
    }
    assert b0[p := EMPTY] == b;
    assert RemoveDead(b0, v, c) == b;
    assert RemoveDead(b, v, Other(c)) == b;
  }

  /** If an answer brings the old board back, the move was of the ko shape. */
  lemma ReturnIsKo(b: Board, v: nat, p: int, c: int, b1: Board, q: int)
    requires 2 <= v <= p < |b| - v && b[p] == EMPTY && IsStone(c) && Coloured(b)
    requires b1 == RemoveDead(b[p := c], v, Other(c)) && AllAlive(b1, v)
    requires 0 <= q < |b| && b1[q] == EMPTY && PlayOn(b1, v, q, Other(c)) == b
    ensures KoShape(b[p := c], v, p, c, q)
  {
    var b0, t := b[p := c], Other(c);
    var b2 := b1[q := t];
    var r := RemoveDead(b2, v, c);
    assert b == RemoveDead(r, v, t);
    assert b2[p] == c && !HasLiberty(b2, v, p) && r[p] == EMPTY;
    AnswerTouches(b, v, p, c, b1, q);
    AdjSym(v, p, q);
    assert b0[q] == t by {
      ConnSelf(r, v, q);
      assert HasLiberty(r, v, q);
    }
    forall x | 0 <= x < |b| && b0[x] == t && !HasLiberty(b0, v, x)
      ensures x == q
    {
    }
    ConnSelf(b0, v, q);
    forall x | x in Group(b0, v, q)
      ensures x == q
    {
      ConnInside(b0, v, q, x);
      ConnDead(b0, v, q, x);
    }
    AdjIsNbr(v, p, q);
    forall i: nat | i < 4 && Nbr(v, p, i) != q
      ensures Walled(b0, v, c, Nbr(v, p, i))
    {
      assert Adj(v, p, Nbr(v, p, i));
      ConnSelf(b2, v, p);
    }
  }

  /** The answer must take the move's last liberty, and the move joined nothing. */
  lemma AnswerTouches(b: Board, v: nat, p: int, c: int, b1: Board, q: int)
    requires 2 <= v <= p < |b| - v && b[p] == EMPTY && IsStone(c)
    requires b1 == RemoveDead(b[p := c], v, Other(c)) && AllAlive(b1, v)
    requires 0 <= q < |b| && b1[q] == EMPTY && PlayOn(b1, v, q, Other(c)) == b
    ensures Adj(v, p, q) && forall y :: 0 <= y < |b| && Adj(v, p, y) ==> b[y] != c
  {
    var b0, t := b[p := c], Other(c);
    var b2 := b1[q := t];
    var r := RemoveDead(b2, v, c);
    assert b == RemoveDead(r, v, t);
    assert !HasLiberty(b2, v, p);
    forall y | 0 <= y < |b| && Adj(v, p, y)
      ensures b[y] != c
    {
      if b[y] == c {
        assert HasLiberty(b2, v, y);
        ConnSelf(b2, v, p);
        ConnStep(b2, v, p, p, y);
        ConnDead(b2, v, p, y);
      }
    }
    LonelyGroup(b1, v, p);
    assert HasLiberty(b1, v, p);
    var x, z :| Conn(b1, v, p, x) && Adj(v, x, z) && 0 <= z < |b| && b1[z] == EMPTY;
    ConnSelf(b2, v, p);
    assert b2[z] == if z == q then t else EMPTY;
  }

  // The ko point -----------------------------------------------------------------------

  /** What an accepted move removes is only the opponent's. */
  lemma AcceptedBoard(e: Env, s: Pos, p: int, c: int)
    requires CanMove(e, s, p, c) && !Move(e, s, p, c).self
    ensures Move(e, s, p, c).look.pos.board == RemoveDead(s.board[p := c], e.v, Other(c))
  {
    var w := MoveScans(e, s, p, c);
    var b0 := s.board[p := c];
    var a := Scanned(e, s, p, c);
    var t := a.0.pos;
    var D := {} + Taken(b0, e.v, p, a.1, 0);
    ScannedStands(t.board, e.v, t.uf, w, p, c, a.0.root);
    EnemiesRemoved(b0, t.board, e.v, t.uf, w, Other(c), D);
    assert IsRoot(t.board, w, c, a.0.root);
  }

  lemma TakesEnemy(b0: Board, v: nat, p: int, c: int, k: nat)
    requires 2 <= v <= p < |b0| - v && k < 4 && Takes(b0, v, p, c, k)
    ensures b0[Nbr(v, p, k)] == Other(c)
  {
  }

  /** A move that is no suicide leaves ko point q exactly if an answer at the
      empty point q would bring back the board before the move. */
  lemma KoIsExact(e: Env, s: Pos, p: int, c: int, q: int)
    requires CanMove(e, s, p, c) && !Move(e, s, p, c).self
    requires 0 <= q < |s.board|
    ensures var m := Move(e, s, p, c); var b := m.look.pos.board;
            q > 0 && m.look.kostat == q <==> b[q] == EMPTY && PlayOn(b, e.v, q, Other(c)) == s.board
  {
    hide Move, Standing, Tallied, KoShape, OnlyTaken, Takes, KoAfter, PlayOn, RemoveDead, AllAlive, Balanced, HasMark;
    var m := Move(e, s, p, c);
    var b0, b1 := s.board[p := c], m.look.pos.board;
    AcceptedBoard(e, s, p, c);
    MoveFollowsRules(e, s, p, c);
    MoveRecords(e, s, p, c);
    SoundAlive(e, s);
    SoundAlive(e, m.look.pos);
    assert b1[0] == EDGE && b0[0] == EDGE;
    if q > 0 {
      forall k | 0 <= k < 4 && m.taken[k]
        ensures b0[Nbr(e.v, p, k)] == Other(c)
      {
        TakesEnemy(b0, e.v, p, c, k);
      }
      KoAfterIs(b0, e.v, p, c, m.taken, q);
      OnlyTakenIsKoShape(b0, e.v, p, c, m.taken, q);
      if KoShape(b0, e.v, p, c, q) {
        KoTakesOne(s.board, e.v, p, c, q);
        KoReturns(s.board, e.v, p, c, q);
      } else if b1[q] == EMPTY && PlayOn(b1, e.v, q, Other(c)) == s.board {
        ReturnIsKo(s.board, e.v, p, c, b1, q);
      }
    }
  }

  /** A move that captures nothing next to it leaves no ko point. */
  lemma {:induction false} NoneTaken(b: Board, v: nat, p: int, c: int, flags: seq<bool>, d: nat, k: int)
    requires d <= 4 && |flags| == 4 - d && 2 <= v <= p < |b| - v && k <= 0
    requires forall i :: 0 <= i < |flags| ==> !flags[i]
    ensures KoAfter(b, v, p, c, flags, d, k) <= 0
    decreases 4 - d
  {
    if d < 4 {
      NoneTaken(b, v, p, c, flags[1..], d + 1, KoStep(b, v, Nbr(v, p, d), c, flags[0], k));
    }
  }

  ghost predicate TakesNone(b0: Board, v: nat, p: int, c: int) {
    2 <= v <= p < |b0| - v && forall k: nat {:trigger Takes(b0, v, p, c, k)} :: k < 4 ==> !Takes(b0, v, p, c, k)
  }

  lemma NoKoWithoutTaken(e: Env, s: Pos, p: int, c: int)
    requires CanMove(e, s, p, c) && TakesNone(s.board[p := c], e.v, p, c)
    ensures Move(e, s, p, c).look.kostat <= 0
  {
    hide Move, Standing, Tallied, Takes, KoAfter, Balanced;
    MoveRecords(e, s, p, c);
    forall k: nat | k < 4
      ensures !Move(e, s, p, c).taken[k]
    {
      assert !Takes(s.board[p := c], e.v, p, c, k);
    }
    NoneTaken(s.board[p := c], e.v, p, c, Move(e, s, p, c).taken, 0, 0);
  }

  /** A move that captures is no suicide. */
  lemma TakingLives(e: Env, s: Pos, p: int, c: int, k: nat)
    requires CanMove(e, s, p, c) && k < 4 && Takes(s.board[p := c], e.v, p, c, k)
    ensures PlayOn(s.board, e.v, p, c)[p] == c
  {
    var b0 := s.board[p := c];
    var b := RemoveDead(b0, e.v, Other(c));
    ConnSelf(b, e.v, p);
    assert Adj(e.v, p, Nbr(e.v, p, k)) && b[Nbr(e.v, p, k)] == EMPTY;
    assert HasLiberty(b, e.v, p);
  }

  lemma SuicideTakesNone(e: Env, s: Pos, p: int, c: int)
    requires CanMove(e, s, p, c) && PlayOn(s.board, e.v, p, c)[p] == EMPTY
    ensures TakesNone(s.board[p := c], e.v, p, c)
  {
    hide PlayOn, Takes, Standing, Tallied;
    forall k: nat {:trigger Takes(s.board[p := c], e.v, p, c, k)} | k < 4
      ensures !Takes(s.board[p := c], e.v, p, c, k)
    {
      if Takes(s.board[p := c], e.v, p, c, k) {
        TakingLives(e, s, p, c, k);
      }
    }
  }

  /** Setting up a handicap leaves no ko point. */
  lemma {:induction false} StarsLeaveNoKo(t: Terms, s: Pos, m: MoveRec, n: nat)
    requires StarsFit(t.start, t.e.v, t.stars) && SettingUp(t, s) && n <= |t.stars| && m.ko <= 0
    ensures PlaceStars(t, s, m, n).1.ko <= 0
    decreases n
  {
    hide Move, Standing, Tallied, StarsFit, Framed, Coloured, Takes;
    if n > 0 {
      StarsLeaveNoKo(t, s, m, n - 1);
      var u := PlaceStars(t, s, m, n - 1).0;
      var p := t.stars[n - 1];
      StarIn(t, n - 1);
      if u.board[p] == EMPTY {
        StarPlayable(t, u, p);
        StarTakesNone(t, u, p);
        NoKoWithoutTaken(t.e, u, p, BLACK);
      }
    }
  }

  lemma StarTakesNone(t: Terms, s: Pos, p: int)
    requires StarsFit(t.start, t.e.v, t.stars) && SettingUp(t, s) && p in t.stars && CanMove(t.e, s, p, BLACK)
    ensures TakesNone(s.board[p := BLACK], t.e.v, p, BLACK)
  {
    hide Standing, Tallied;
  }

  /** In a recorded game the ko point bars exactly the answers that would bring back
      the board before the last move. A pass, a handicap and a suicide bar nothing. */
  lemma KoInHistory(t: Terms, trail: seq<Pos>, moves: seq<MoveRec>, n: nat, q: int)
    requires History(t, trail, moves, n) && 0 <= q < |trail[n].board| && trail[n].board[q] == EMPTY
    ensures q == moves[n].ko <==>
      && n > 0 && 0 <= moves[n].point < |trail[n].board| && trail[n].board[moves[n].point] != EMPTY
      && PlayOn(trail[n].board, t.e.v, q, if n % 2 == 0 then BLACK else WHITE) == trail[n - 1].board
  {
    hide Move, Standing, Tallied, PlayOn, StarsFit, PlaceStars, Takes;
    assert Sound(t.e, trail[n]);
    assert q > 0;
    if n > 0 {
      StepUndoes(t, trail, moves, n, n);
      var p := moves[n].point;
      if p >= 0 {
        var s, c := trail[n - 1], ColourOf(n);
        MoveFollowsRules(t.e, s, p, c);
        if Move(t.e, s, p, c).self {
          SuicideTakesNone(t.e, s, p, c);
          NoKoWithoutTaken(t.e, s, p, c);
        } else {
          KoIsExact(t.e, s, p, c, q);
        }
      } else if p < PASS {
        StarsLeaveNoKo(t, trail[0], FIRST, |t.stars|);
      } else {
        var i := n - 1;
        assert Step(t, trail[i], trail[i + 1], moves[i], moves[i + 1], i);
      }
    }
  }
}
