/** A hash that is out of date: what becomes of a refused suicide after dead
    stones were removed without the history being told. */
module GoStale {
  import opened GoBoard
  import opened GoRules
  import opened GoEngine
  import opened GoTally
  import opened GoLog
  import opened GoPlay
  import opened GoStart

  /** No neighbour of p has its colour. */
  ghost predicate Lone(b: Board, v: nat, p: int) {
    0 <= p < |b| && IsStone(b[p]) && forall y {:trigger b[y]} :: Adj(v, p, y) && 0 <= y < |b| && y != p ==> b[y] != b[p]
  }

  lemma LoneGroup(b: Board, v: nat, p: int)
    requires Lone(b, v, p)
    ensures Repaint(b, v, p, EMPTY) == b[p := EMPTY]
  {
    ConnSelf(b, v, p);
    forall q | 0 <= q < |b| && Conn(b, v, p, q)
      ensures q == p
    {
      ConnClosed(b, v, {p}, p, q);
    }
  }

  lemma HashBit(e: Env, s: Pos, i: nat)
    requires Tallied(e, s)
    ensures i in s.hash <==> |Keyed(e, s.board, i)| % 2 == 1
  {
  }

  lemma HashWithout(e: Env, s: Pos, u: Pos, p: int)
    requires Tallied(e, s) && Tallied(e, u) && 0 <= p < |s.board|
    requires IsStone(s.board[p]) && u.board == s.board[p := EMPTY]
    ensures u.hash == s.hash <==> e.zob(p, s.board[p]) == {}
  {
    hide Keyed, Tallied;
    forall i: nat
      ensures (i in u.hash <==> i in s.hash) <==> i !in e.zob(p, s.board[p])
    {
      KeyedUpdate(e, s.board, p, s.board[p], EMPTY, i);
      HashBit(e, s, i);
      HashBit(e, u, i);
    }
  }

  /** Taking a lone stone off changes the hash exactly if the stone has a key. */
  lemma RemovalRehashes(e: Env, s: Pos, p: int)
    requires Sound(e, s) && Lone(s.board, e.v, p)
    ensures var u := Capture(e, s, p, s.board[p]).0;
            Sound(e, u) && u.board == s.board[p := EMPTY] && (u.hash == s.hash <==> e.zob(p, s.board[p]) == {})
  {
    hide Capture, Standing, Conn, Repaint, LogFits, Balanced, Tallied;
    RemovalSound(e, s, p);
    LoneGroup(s.board, e.v, p);
    HashWithout(e, s, Capture(e, s, p, s.board[p]).0, p);
  }

  /** A suicide that is refused after such a removal is taken back with the hash
      that the history recorded before it. The position is then in order exactly
      if the stone had no key. */
  lemma StaleHash(e: Env, s: Pos, p: int, q: int, c: int)
    requires Sound(e, s) && Lone(s.board, e.v, p)
    requires var b := s.board[p := EMPTY];
      0 <= q < |b| && b[q] == EMPTY && IsStone(c) && PlayOn(b, e.v, q, c)[q] == EMPTY
    ensures var u := Capture(e, s, p, s.board[p]).0;
            && CanMove(e, u, q, c)
            && var m := Move(e, u, q, c);
              && m.self
              && (Sound(e, Retract(e, m.look.pos, q, c, m.taken, m.self, s.hash)) <==> e.zob(p, s.board[p]) == {})
  {
    hide Capture, Standing, Tallied, Move, Retract;
    RemovalRehashes(e, s, p);
    var u := Capture(e, s, p, s.board[p]).0;
    MoveFollowsRules(e, u, q, c);
    RetractSound(e, u, q, c, s.hash);
  }

  // Four points in a row ----------------------------------------------------------------

  /** A board of four points by one, with what stands on them. */
  function Row(w: int, x: int, y: int, z: int): Board {
    [EDGE, EDGE, EDGE, EDGE, EDGE, EDGE, w, x, y, z, EDGE, EDGE, EDGE, EDGE, EDGE]
  }

  /** From the empty board s0 Black takes the last of the four points, which gives
      s1, and White the second, which gives s2. */
  ghost predicate Opening(e: Env, s0: Pos, s1: Pos, s2: Pos) {
    && s0.board == StartBoard(4, 1) && s0.hash == {}
    && CanMove(e, s0, 9, BLACK) && s1 == Move(e, s0, 9, BLACK).look.pos
    && CanMove(e, s1, 7, WHITE) && s2 == Move(e, s1, 7, WHITE).look.pos
  }

  lemma TwoMoves(e: Env) returns (s0: Pos, s1: Pos, s2: Pos)
    requires e.v == 5
    ensures Opening(e, s0, s1, s2) && Sound(e, s2) && s2.board == Row(EMPTY, WHITE, EMPTY, BLACK)
  {
    hide Standing, Tallied, LogFits, Move, PlayOn, StartBoard, Airy;
    StartRow();
    RowsAiry();
    s0 := Pos(StartBoard(4, 1), seq(BoardSize(4, 1), _ => 0), [], {}, [0, 0, 0, 0]);
    StartSound(e, s0, 4, 1);
    assert s0.board[9 := BLACK] == Row(EMPTY, EMPTY, EMPTY, BLACK);
    s1 := QuietMove(e, s0, 9, BLACK);
    assert s1.board[7 := WHITE] == Row(EMPTY, WHITE, EMPTY, BLACK);
    s2 := QuietMove(e, s1, 7, WHITE);
  }

  lemma QuietMove(e: Env, s: Pos, p: int, c: int) returns (s': Pos)
    requires CanMove(e, s, p, c) && Airy(s.board[p := c], e.v)
    ensures s' == Move(e, s, p, c).look.pos && Sound(e, s') && s'.board == s.board[p := c]
  {
    hide Standing, Tallied, LogFits, Move, PlayOn, Airy;
    MoveFollowsRules(e, s, p, c);
    Quiet(s.board, e.v, p, c);
    s' := Move(e, s, p, c).look.pos;
  }

  lemma StartRow()
    ensures StartBoard(4, 1) == Row(EMPTY, EMPTY, EMPTY, EMPTY)
  {
  }

  lemma RowsAiry()
    ensures Airy(Row(EMPTY, EMPTY, EMPTY, BLACK), 5) && Airy(Row(EMPTY, WHITE, EMPTY, BLACK), 5)
  {
    forall x | 0 <= x < 15 && IsStone(Row(EMPTY, EMPTY, EMPTY, BLACK)[x])
      ensures HasAir(Row(EMPTY, EMPTY, EMPTY, BLACK), 5, x)
    {
      assert Adj(5, x, 8);
    }
    forall x | 0 <= x < 15 && IsStone(Row(EMPTY, WHITE, EMPTY, BLACK)[x])
      ensures HasAir(Row(EMPTY, WHITE, EMPTY, BLACK), 5, x)
    {
      assert Adj(5, x, 8);
    }
  }

  ghost predicate HasAir(b: Board, v: nat, x: int) {
    exists y :: Adj(v, x, y) && 0 <= y < |b| && b[y] == EMPTY
  }

  ghost predicate Airy(b: Board, v: nat) {
    forall x {:trigger HasAir(b, v, x)} :: 0 <= x < |b| && IsStone(b[x]) ==> HasAir(b, v, x)
  }

  /** Nothing is removed if each stone has an empty point next to it. */
  lemma Quiet(b: Board, v: nat, p: int, c: int)
    requires 0 <= p < |b| && IsStone(c) && Airy(b[p := c], v)
    ensures PlayOn(b, v, p, c) == b[p := c]
  {
    var b' := b[p := c];
    forall x | 0 <= x < |b| && IsStone(b'[x])
      ensures HasLiberty(b', v, x)
    {
      assert HasAir(b', v, x);
      ConnSelf(b', v, x);
    }
    assert RemoveDead(b', v, Other(c)) == b' == RemoveDead(b', v, c);
  }

  /** Without the stone on the last point Black has no liberty on the first. */
  lemma FirstIsSuicide()
    ensures PlayOn(Row(EMPTY, WHITE, EMPTY, EMPTY), 5, 6, BLACK)[6] == EMPTY
  {
    var b := Row(BLACK, WHITE, EMPTY, EMPTY);
    assert Row(EMPTY, WHITE, EMPTY, EMPTY)[6 := BLACK] == b;
    ConnSelf(b, 5, 7);
    assert Adj(5, 7, 8) && b[8] == EMPTY;
    assert HasLiberty(b, 5, 7);
    assert RemoveDead(b, 5, WHITE) == b;
    DeadHasNoLiberty(b, 5, BLACK, {6}, 6);
  }

  /** So after two moves and the removal of the black stone the refusal of Black's
      next move leaves a wrong hash, exactly if that stone has a key. */
  lemma StaleRow(e: Env) returns (s0: Pos, s1: Pos, s2: Pos)
    requires e.v == 5
    ensures Opening(e, s0, s1, s2) && Sound(e, s2) && s2.board == Row(EMPTY, WHITE, EMPTY, BLACK)
    ensures var u := Capture(e, s2, 9, BLACK).0;
            && u.board == Row(EMPTY, WHITE, EMPTY, EMPTY) && CanMove(e, u, 6, BLACK)
            && var m := Move(e, u, 6, BLACK);
              && m.self
              && (Sound(e, Retract(e, m.look.pos, 6, BLACK, m.taken, m.self, s2.hash)) <==> e.zob(9, BLACK) == {})
  {
    hide Opening, Capture, Sound, Move, Retract, Standing, Tallied, PlayOn;
    s0, s1, s2 := TwoMoves(e);
    assert s2.board[9 := EMPTY] == Row(EMPTY, WHITE, EMPTY, EMPTY);
    FirstIsSuicide();
    RemovalRehashes(e, s2, 9);
    StaleHash(e, s2, 9, 6, BLACK);
  }
}
