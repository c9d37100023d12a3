/** Playing a stone: what mink_play does to a sound position, against the
    naive rules. */
module GoPlay {
  import opened GoBoard
  import opened GoRules
  import opened GoEngine
  import opened GoTally
  import opened GoForest
  import opened GoLog
  import opened GoScan
  import opened GoSteps
  import opened GoMove

  /** Between moves every root holds minus its liberty edges, and has some. */
  ghost predicate Standing(b: Board, v: nat, uf: seq<int>, w: Witness) {
    && Trees(b, v, uf, w, BLACK) && Trees(b, v, uf, w, WHITE)
    && WholeBut(b, v, w, BLACK, -1) && WholeBut(b, v, w, WHITE, -1)
    && (forall c, r {:trigger IsRoot(b, w, c, r)} :: IsStone(c) && IsRoot(b, w, c, r) ==>
      uf[r] == -|Edges(b, v, w, c, r)| && uf[r] < 0)
  }

  /** A position as the engine leaves it after every operation. */
  ghost predicate Sound(e: Env, s: Pos) {
    && Shape(e, s)
    && Tallied(e, s)
    && LogFits(s)
    && exists w :: Standing(s.board, e.v, s.uf, w)
  }

  /** The pairs of a stone of p's group and an empty point next to it. */
  ghost function LibertyEdges(b: Board, v: nat, p: int): set<(int, int)> {
    set q, z | 0 <= q < |b| && 0 <= z < |b| && q in Group(b, v, p) && Adj(v, q, z) && b[z] == EMPTY :: (q, z)
  }

  /** From any stone the links lead to one stone of its own group, which holds
      minus the number of liberty edges of the group. */
  lemma RootCounts(e: Env, s: Pos, p: int)
    requires Sound(e, s) && 0 <= p < |s.board| && IsStone(s.board[p])
    ensures Ends(s.uf, p)
    ensures var r := Root(s.uf, p);
            r in Group(s.board, e.v, p) && 0 <= r < |s.uf| && s.uf[r] == -|LibertyEdges(s.board, e.v, p)| < 0
  {
    hide Tallied, Conn;
    var b, v, c := s.board, e.v, s.board[p];
    var w :| Standing(b, v, s.uf, w);
    var n := RootWalk(b, v, s.uf, w, c, p);
    RootIsRep(b, v, s.uf, w, c, p);
    var r := w.rep[p];
    forall q
      ensures Conn(b, v, p, q) <==> InTree(b, w, c, r, q)
    {
      GroupIsTree(b, v, s.uf, w, c, -1, p, q);
    }
    assert IsRoot(b, w, c, r);
    forall x
      ensures x in LibertyEdges(b, v, p) <==> x in Edges(b, v, w, c, r)
    {
      assert 0 <= x.0 < |b| ==> (x.0 in Group(b, v, p) <==> InTree(b, w, c, r, x.0));
    }
    assert LibertyEdges(b, v, p) == Edges(b, v, w, c, r);
  }

  /** Stones of one colour have the same root exactly if they are connected. */
  lemma RootsTell(e: Env, s: Pos, p: int, q: int)
    requires Sound(e, s) && 0 <= p < |s.board| && 0 <= q < |s.board| && s.board[p] == s.board[q] && IsStone(s.board[p])
    ensures Root(s.uf, p) == Root(s.uf, q) <==> Conn(s.board, e.v, p, q)
  {
    hide Tallied, Conn;
    var w :| Standing(s.board, e.v, s.uf, w);
    RootIsRep(s.board, e.v, s.uf, w, s.board[p], p);
    RootIsRep(s.board, e.v, s.uf, w, s.board[p], q);
    GroupIsTree(s.board, e.v, s.uf, w, s.board[p], -1, p, q);
  }

  // Placing the stone -----------------------------------------------------------

  lemma PlaceTree(b: Board, v: nat, uf: seq<int>, w: Witness, p: int, c: int, k: int)
    requires Trees(b, v, uf, w, k) && 0 <= p < |b| && b[p] == EMPTY && IsStone(c) && IsStone(k)
    requires WholeBut(b, v, w, k, -1)
    ensures Trees(b[p := c], v, uf[p := 0], Witness(w.rep[p := p], w.rank[p := 0]), k)
    ensures WholeBut(b[p := c], v, Witness(w.rep[p := p], w.rank[p := 0]), k, p)
  {
    var b', uf', m := b[p := c], uf[p := 0], Witness(w.rep[p := p], w.rank[p := 0]);
    forall q | 0 <= q < |b| && b'[q] == k
      ensures Conn(b', v, q, m.rep[q]) && Linked(b', uf', m, k, q)
    {
      if q == p {
        ConnSelf(b', v, p);
      } else {
        assert Conn(b, v, q, w.rep[q]) && Linked(b, uf, w, k, q);
        ConnMono(b, b', v, q, w.rep[q]);
      }
    }
  }

  lemma PlaceOwes(b: Board, v: nat, uf: seq<int>, w: Witness, p: int, c: int, k: int)
    requires Trees(b, v, uf, w, k) && 0 <= p < |b| && b[p] == EMPTY && IsStone(c) && IsStone(k) && 2 <= v
    requires forall r {:trigger IsRoot(b, w, k, r)} :: IsRoot(b, w, k, r) ==>
      uf[r] == -|Edges(b, v, w, k, r)| && uf[r] < 0
    ensures OwesBut(b[p := c], v, uf[p := 0], Witness(w.rep[p := p], w.rank[p := 0]), k, p, p, 0)
  {
    var b', uf', m := b[p := c], uf[p := 0], Witness(w.rep[p := p], w.rank[p := 0]);
    forall r | IsRoot(b', m, k, r)
      ensures uf'[r] == Owed(b', v, m, k, r, p, p, 0) && (r != p ==> uf'[r] < 0)
    {
      assert b'[p := EMPTY] == b;
      if r == p {
        assert forall q :: InTree(b', m, k, p, q) ==> q == p;
        DueIsNone(b', v, m, k, p, p, 0);
        UnseenIsAll(b', v, m, k, p);
      } else {
        assert IsRoot(b, w, k, r);
        EdgesGained(b', v, m, k, r, p);
        assert Edges(b, v, m, k, r) == Edges(b, v, w, k, r);
      }
    }
  }

  lemma PlaceScans(e: Env, s: Pos, p: int, c: int, w: Witness) returns (w': Witness)
    requires Shape(e, s) && Tallied(e, s) && Standing(s.board, e.v, s.uf, w)
    requires 0 <= p < |s.board| && s.board[p] == EMPTY && IsStone(c)
    ensures Along(e, s.board[p := c], Look(Place(e, s, p, c), p, 0), p, c, 0, {}, w')
  {
    var b0 := s.board[p := c];
    w' := Witness(w.rep[p := p], w.rank[p := 0]);
    PlaceTree(s.board, e.v, s.uf, w, p, c, c);
    PlaceTree(s.board, e.v, s.uf, w, p, c, Other(c));
    PlaceOwes(s.board, e.v, s.uf, w, p, c, c);
    PlaceOwes(s.board, e.v, s.uf, w, p, c, Other(c));
    PaintHash(e, s, p, c, c, 0);
    assert Emptied(b0, {}) == b0;
    assert Shape(e, Place(e, s, p, c));
    SameBoardTallied(e, Paint(e, s, p, c, c, 0), Place(e, s, p, c));
  }

  lemma SameBoardTallied(e: Env, s: Pos, t: Pos)
    requires Tallied(e, s) && s.board == t.board && s.hash == t.hash
    ensures Tallied(e, t)
  {
  }

  // Groups with and without liberties -------------------------------------------

  lemma TreeAlive(b: Board, v: nat, uf: seq<int>, w: Witness, c: int, q: int)
    requires Trees(b, v, uf, w, c) && 0 <= q < |b| && b[q] == c && |Edges(b, v, w, c, w.rep[q])| > 0
    ensures exists x, z :: Conn(b, v, q, x) && Adj(v, x, z) && 0 <= z < |b| && b[z] == EMPTY
  {
    var e :| e in Edges(b, v, w, c, w.rep[q]);
    assert Conn(b, v, q, w.rep[q]) && Conn(b, v, e.0, w.rep[e.0]);
    ConnSym(b, v, e.0, w.rep[e.0]);
    ConnTrans(b, v, q, w.rep[q], e.0);
    assert Adj(v, e.0, e.1);
  }

  /** Felling a group whose root owes nothing, or any group of a standing
      position, leaves a standing position. */
  lemma FellStands(b: Board, v: nat, uf: seq<int>, b': Board, uf': seq<int>, w: Witness, c: int, n: int)
    requires IsStone(c) && 0 <= n < |b| && b[n] == c
    requires Trees(b, v, uf, w, c) && Trees(b, v, uf, w, Other(c))
    requires WholeBut(b, v, w, c, -1) && WholeBut(b, v, w, Other(c), -1)
    requires forall k, r {:trigger IsRoot(b, w, k, r)} :: IsStone(k) && IsRoot(b, w, k, r) ==>
      uf[r] == -|Edges(b, v, w, k, r)| && (r != w.rep[n] ==> uf[r] < 0)
    requires b' == Repaint(b, v, n, EMPTY) && CreditedAt(b, uf, b', uf', v, w, Other(c), n)
    ensures Standing(b', v, uf', w)
  {
    var r := w.rep[n];
    RepaintFells(b, v, uf, w, c, -1, n);
    FelledTrees(b, v, uf, b', uf', w, c, -1, r);
    forall k, q | IsStone(k) && IsRoot(b', w, k, q)
      ensures uf'[q] == -|Edges(b', v, w, k, q)| && uf'[q] < 0
    {
      assert IsRoot(b, w, k, q);
      if k == c {
        FelledEdges(b, v, b', w, c, -1, r, q);
      } else {
        EdgesGrow(b, v, b', w, c, k, r, q);
      }
    }
  }

  /** When all four directions are seen, only p's own group may owe nothing. */
  lemma ScannedStands(b: Board, v: nat, uf: seq<int>, w: Witness, p: int, c: int, root: int)
    requires Scanning(b, v, uf, w, p, c, root, 4)
    ensures WholeBut(b, v, w, c, -1) && WholeBut(b, v, w, Other(c), -1)
    ensures forall k, r {:trigger IsRoot(b, w, k, r)} :: IsStone(k) && IsRoot(b, w, k, r) ==>
      uf[r] == -|Edges(b, v, w, k, r)| && (r != root ==> uf[r] < 0)
  {
    forall x, y | 0 <= x < |b| && 0 <= y < |b| && b[x] == c && b[y] == c && Adj(v, x, y)
      ensures w.rep[x] == w.rep[y]
    {
      if x == p {
        FriendSeen(b, v, w, p, c, root, y);
      } else if y == p {
        FriendSeen(b, v, w, p, c, root, x);
      }
    }
  }

  lemma FriendSeen(b: Board, v: nat, w: Witness, p: int, c: int, root: int, y: int)
    requires |w.rep| == |b| && 2 <= v <= p < |b| - v && 0 <= y < |b| && b[y] == c && (Adj(v, p, y) || Adj(v, y, p))
    requires forall k :: 0 <= k < 4 && b[Nbr(v, p, k)] == c ==> w.rep[Nbr(v, p, k)] == root
    ensures w.rep[y] == root
  {
    var k := if y == p - v then 0 else if y == p - 1 then 1 else if y == p + 1 then 2 else 3;
    assert y == Nbr(v, p, k);
  }

  /** What was captured is all that the rules remove from the opponent. */
  lemma EnemiesRemoved(b0: Board, b: Board, v: nat, uf: seq<int>, w: Witness, t: int, D: set<int>)
    requires DeadSet(b0, v, t, D) && b == Emptied(b0, D) && IsStone(t)
    requires Trees(b, v, uf, w, t)
    requires forall r {:trigger IsRoot(b, w, t, r)} :: IsRoot(b, w, t, r) ==> |Edges(b, v, w, t, r)| > 0
    ensures RemoveDead(b0, v, t) == b
  {
    forall q | 0 <= q < |b0| && b0[q] == t && q !in D
      ensures HasLiberty(b0, v, q)
    {
      assert IsRoot(b, w, t, w.rep[q]);
      TreeAlive(b, v, uf, w, t, q);
      var x, z :| Conn(b, v, q, x) && Adj(v, x, z) && 0 <= z < |b| && b[z] == EMPTY;
      ConnMono(b, b0, v, q, x);
      assert z !in D by {
        assert Adj(v, z, x);
      }
    }
    RemoveDeadIsEmptied(b0, v, t, D);
  }

  /** The player's dead stones are p's group if its root owes nothing, else none. */
  lemma OwnRemoved(b: Board, v: nat, uf: seq<int>, w: Witness, p: int, c: int)
    requires Trees(b, v, uf, w, c) && 0 <= p < |b| && b[p] == c && IsStone(c) && WholeBut(b, v, w, c, -1)
    requires forall r {:trigger IsRoot(b, w, c, r)} :: IsRoot(b, w, c, r) ==>
      uf[r] == -|Edges(b, v, w, c, r)| && (r != w.rep[p] ==> uf[r] < 0)
    ensures RemoveDead(b, v, c) == if uf[w.rep[p]] == 0 then Repaint(b, v, p, EMPTY) else b
    ensures uf[w.rep[p]] == 0 ==> DeadSet(b, v, c, Group(b, v, p))
  {
    hide Conn;
    assert IsRoot(b, w, c, w.rep[p]);
    var E := Edges(b, v, w, c, w.rep[p]);
    var D := if uf[w.rep[p]] == 0 then Group(b, v, p) else {};
    GroupClosed(b, v, p);
    forall q | 0 <= q < |b| && b[q] == c
      ensures Conn(b, v, p, q) <==> w.rep[q] == w.rep[p]
    {
      GroupIsTree(b, v, uf, w, c, -1, p, q);
    }
    forall x | x in D
      ensures b[x] == c && w.rep[x] == w.rep[p]
    {
      ConnInside(b, v, p, x);
    }
    forall x, y | x in D && Adj(v, x, y) && 0 <= y < |b|
      ensures b[y] != EMPTY
    {
      assert b[y] == EMPTY ==> (x, y) in E;
    }
    forall q | 0 <= q < |b| && b[q] == c && q !in D
      ensures HasLiberty(b, v, q)
    {
      assert IsRoot(b, w, c, w.rep[q]);
      TreeAlive(b, v, uf, w, c, q);
    }
    RemoveDeadIsEmptied(b, v, c, D);
    assert Emptied(b, D) == if uf[w.rep[p]] == 0 then Repaint(b, v, p, EMPTY) else b;
  }

  // The whole move -----------------------------------------------------------------

  ghost predicate CanMove(e: Env, s: Pos, p: int, c: int) {
    Sound(e, s) && 0 <= p < |s.board| && s.board[p] == EMPTY && IsStone(c)
  }

  /** The scan of the move, before any suicide is carried out. */
  ghost function Scanned(e: Env, s: Pos, p: int, c: int): (r: (Look, seq<bool>))
    requires Shape(e, s) && 0 <= p < |s.board| && s.board[p] == EMPTY && IsStone(c)
    ensures LookShape(e, r.0) && |r.0.pos.board| == |s.board| && |r.1| == 4
  {
    LookAround(e, Look(Place(e, s, p, c), p, 0), p, c, 0)
  }

  lemma MoveScans(e: Env, s: Pos, p: int, c: int) returns (w: Witness)
    requires CanMove(e, s, p, c)
    ensures Done(e, s.board[p := c], Look(Place(e, s, p, c), p, 0), p, c, 0, {}, Scanned(e, s, p, c), w)
  {
    var w0 :| Standing(s.board, e.v, s.uf, w0);
    var w1 := PlaceScans(e, s, p, c, w0);
    w := LookAroundScans(e, s.board[p := c], Look(Place(e, s, p, c), p, 0), p, c, 0, {}, w1);
  }

  ghost predicate HasMark(log: seq<Entry>) {
    exists i :: 0 <= i < |log| && log[i] == MARK
  }

  lemma PlaceMarks(e: Env, s: Pos, p: int, c: int)
    requires 0 <= p < |s.board| == |s.uf| && LogFits(s)
    ensures LogFits(Place(e, s, p, c)) && |s.log| < |Place(e, s, p, c).log| && Place(e, s, p, c).log[|s.log|] == MARK
  {
  }

  /** A move leaves a sound position, whose board is the one that the rules
      give; it is suicide exactly when the rules take the played stone off. */
  lemma MoveFollowsRules(e: Env, s: Pos, p: int, c: int)
    requires CanMove(e, s, p, c)
    ensures var m := Move(e, s, p, c);
            && Sound(e, m.look.pos)
            && m.look.pos.board == PlayOn(s.board, e.v, p, c)
            && HasMark(m.look.pos.log)
            && (m.self <==> PlayOn(s.board, e.v, p, c)[p] == EMPTY)
  {
    var w := MoveScans(e, s, p, c);
    var b0 := s.board[p := c];
    var a := Scanned(e, s, p, c);
    var t := a.0.pos;
    var D := {} + Taken(b0, e.v, p, a.1, 0);
    ScannedStands(t.board, e.v, t.uf, w, p, c, a.0.root);
    EnemiesRemoved(b0, t.board, e.v, t.uf, w, Other(c), D);
    OwnRemoved(t.board, e.v, t.uf, w, p, c);
    var m := Move(e, s, p, c);
    PlaceMarks(e, s, p, c);
    LoggedFits(Place(e, s, p, c), t);
    MarkStays(Place(e, s, p, c), t, |s.log|);
    if m.self {
      CaptureCredits(e, t, p, c, w);
      CaptureTallied(e, t, p, c);
      CaptureLogged(e, t, p, c, w);
      LoggedFits(t, m.look.pos);
      MarkStays(t, m.look.pos, |s.log|);
      FellStands(t.board, e.v, t.uf, m.look.pos.board, m.look.pos.uf, w, c, p);
      ConnSelf(t.board, e.v, p);
    } else {
      assert IsRoot(t.board, w, c, a.0.root);
      assert Standing(t.board, e.v, t.uf, w);
    }
  }

  /** Which neighbours are recorded as captured, and the ko state, depend on the
      board alone: a direction is flagged when it is the last one leading to a
      dead enemy group. */
  ghost predicate Takes(b0: Board, v: nat, p: int, c: int, k: nat)
    requires 2 <= v <= p < |b0| - v && k < 4
  {
    var n := Nbr(v, p, k);
    && b0[n] == Other(c) && !HasLiberty(b0, v, n)
    && forall j :: k < j < 4 ==> Nbr(v, p, j) !in Group(b0, v, n)
  }

  lemma MoveRecords(e: Env, s: Pos, p: int, c: int)
    requires CanMove(e, s, p, c)
    ensures var m := Move(e, s, p, c); var b0 := s.board[p := c];
            && (forall k :: 0 <= k < 4 ==> (m.taken[k] <==> Takes(b0, e.v, p, c, k)))
            && m.look.kostat == KoAfter(b0, e.v, p, c, m.taken, 0, 0)
            && Balanced(Place(e, s, p, c), m.look.pos)
  {
    var w := MoveScans(e, s, p, c);
    var b0 := s.board[p := c];
    var a := Scanned(e, s, p, c);
    var t := a.0.pos;
    var D := {} + Taken(b0, e.v, p, a.1, 0);
    ScannedStands(t.board, e.v, t.uf, w, p, c, a.0.root);
    EnemiesRemoved(b0, t.board, e.v, t.uf, w, Other(c), D);
    forall k: nat | k < 4
      ensures a.1[k] <==> Takes(b0, e.v, p, c, k)
    {
      FlagIsTakes(b0, t.board, e.v, p, c, a.1, D, k);
    }
    if a.0.pos.uf[a.0.root] == 0 {
      CaptureTallied(e, t, p, c);
      BalancedTrans(Place(e, s, p, c), t, Capture(e, t, p, c).0);
    }
  }

  lemma FlagIsTakes(b0: Board, b: Board, v: nat, p: int, c: int, flags: seq<bool>, D: set<int>, k: nat)
    requires 2 <= v <= p < |b0| - v && k < 4 && |flags| == 4 && IsStone(c) && Flagged(b0, v, p, c, flags, 0)
    requires D == {} + Taken(b0, v, p, flags, 0) && DeadSet(b0, v, Other(c), D)
    requires b == Emptied(b0, D) && RemoveDead(b0, v, Other(c)) == b
    ensures flags[k] <==> Takes(b0, v, p, c, k)
  {
    var n := Nbr(v, p, k);
    if flags[k] {
      ConnSelf(b0, v, n);
      TakenHolds(b0, v, p, flags, 0, k, n);
      DeadHasNoLiberty(b0, v, Other(c), D, n);
    }
    if Takes(b0, v, p, c, k) {
      assert b[n] == EMPTY;
      TakenBy(b0, v, p, flags, 0, n);
      var j :| 0 <= j < 4 && flags[j] && n in Group(b0, v, Nbr(v, p, j));
      ConnSym(b0, v, Nbr(v, p, j), n);
      assert !(j < k) && !(k < j);
    }
  }

  lemma {:induction false} TakenHolds(b: Board, v: nat, p: int, flags: seq<bool>, d: nat, k: nat, x: int)
    requires d <= k < 4 && |flags| == 4 - d && flags[k - d] && x in Group(b, v, Nbr(v, p, k))
    ensures x in Taken(b, v, p, flags, d)
    decreases 4 - d
  {
    if d < k {
      TakenHolds(b, v, p, flags[1..], d + 1, k, x);
    }
  }

  lemma {:induction false} TakenBy(b: Board, v: nat, p: int, flags: seq<bool>, d: nat, x: int)
    requires d <= 4 && |flags| == 4 - d && x in Taken(b, v, p, flags, d)
    ensures exists j :: d <= j < 4 && flags[j - d] && x in Group(b, v, Nbr(v, p, j))
    decreases 4 - d
  {
    if !(flags[0] && x in Group(b, v, Nbr(v, p, d))) {
      TakenBy(b, v, p, flags[1..], d + 1, x);
      var j :| d + 1 <= j < 4 && flags[1..][j - (d + 1)] && x in Group(b, v, Nbr(v, p, j));
      assert flags[j - d];
    }
  }

  // Taking the move back ---------------------------------------------------------------

  lemma {:induction false} RefillRestores(e: Env, s: Pos, b0: Board, p: int, t: int, taken: seq<bool>, d: nat,
      D: set<int>)
    requires Shape(e, s) && IsStone(t) && |taken| == 4 && d <= 4 && 2 <= e.v <= p < |s.board| - e.v && Tallied(e, s)
    requires |b0| == |s.board| && DeadSet(b0, e.v, t, D) && s.board == Emptied(b0, D)
    requires forall k :: d <= k < 4 && taken[k] ==> b0[Nbr(e.v, p, k)] == t
    ensures var r := Refill(e, s, p, t, taken, d);
            && r.board == Emptied(b0, D - Taken(b0, e.v, p, taken[d..], d))
            && r.uf == s.uf && r.log == s.log && Balanced(s, r)
    decreases 4 - d
  {
    hide Fill, DeadSet, Tallied, Count, Framed, Coloured;
    if d == 4 {
      assert D - {} == D;
    } else {
      var n := Nbr(e.v, p, d);
      var G := Group(b0, e.v, n);
      var s1 := if taken[d] then Fill(e, s, n, t) else s;
      var D1 := if taken[d] then D - G else D;
      if taken[d] {
        FillTallied(e, s, n, t);
        RefillOne(b0, s.board, e.v, t, D, n);
      }
      RefillRestores(e, s1, b0, p, t, taken, d + 1, D1);
      assert taken[d..][1..] == taken[d + 1..];
      assert D1 - Taken(b0, e.v, p, taken[d + 1..], d + 1) == D - Taken(b0, e.v, p, taken[d..], d);
      BalancedTrans(s, s1, Refill(e, s1, p, t, taken, d + 1));
    }
  }

  /** Filling at a neighbour puts its group back, if it is not back already. */
  lemma RefillOne(b0: Board, b: Board, v: nat, t: int, D: set<int>, n: int)
    requires DeadSet(b0, v, t, D) && b == Emptied(b0, D) && 0 <= n < |b0| && b0[n] == t != EMPTY
    ensures Flood(b, v, n, EMPTY, t) == Emptied(b0, D - Group(b0, v, n))
    ensures DeadSet(b0, v, t, D - Group(b0, v, n))
  {
    if n in D {
      FillBack(b0, v, t, D, n);
    } else {
      forall x | x in D
        ensures x !in Group(b0, v, n)
      {
        if Conn(b0, v, n, x) {
          ConnSym(b0, v, n, x);
          ConnClosed(b0, v, D, x, n);
        }
      }
      assert D - Group(b0, v, n) == D;
    }
  }

  lemma CapsBack(s: Pos, f: Pos)
    requires |s.caps| == 4 && Balanced(s, f) && s.board == f.board
    ensures f.caps == s.caps
  {
  }

  /** After a suicide nothing else was captured, and filling at p gives back
      exactly the stones that went. */
  lemma SuicideRefills(e: Env, s: Pos, b0: Board, w: Witness, root: int, p: int, c: int, D: set<int>)
    requires Shape(e, s) && Scanning(s.board, e.v, s.uf, w, p, c, root, 4) && s.uf[root] == 0 && Tallied(e, s)
    requires DeadSet(b0, e.v, Other(c), D) && s.board == Emptied(b0, D)
    requires forall x :: x in D ==> exists k :: 0 <= k < 4 && Nbr(e.v, p, k) in D
    ensures var f := Fill(e, Capture(e, s, p, c).0, p, c);
            && f.board == s.board == b0
            && f.uf == Capture(e, s, p, c).0.uf && f.log == Capture(e, s, p, c).0.log
            && Balanced(s, f) && Logged(s, f)
  {
    hide Capture, Fill, Tallied, Count;
    var a := Capture(e, s, p, c).0;
    ScannedStands(s.board, e.v, s.uf, w, p, c, root);
    OwnRemoved(s.board, e.v, s.uf, w, p, c);
    CaptureTallied(e, s, p, c);
    CaptureLogged(e, s, p, c, w);
    FillTallied(e, a, p, c);
    var G := Group(s.board, e.v, p);
    GroupClosed(s.board, e.v, p);
    assert a.board == Emptied(s.board, G);
    FillBack(s.board, e.v, c, G, p);
    assert Emptied(s.board, G - G) == s.board;
    BalancedTrans(s, a, Fill(e, a, p, c));
    LoggedSame(a, Fill(e, a, p, c));
    LoggedTrans(s, a, Fill(e, a, p, c));
    SuicideAlone(b0, s.board, e.v, p, c, D);
    assert Emptied(b0, {}) == b0;
  }

  lemma SuicideAlone(b0: Board, b: Board, v: nat, p: int, c: int, D: set<int>)
    requires 2 <= v <= p < |b| - v && |b| == |b0| && b[p] == c
    requires DeadSet(b, v, c, Group(b, v, p)) && b == Emptied(b0, D)
    requires forall x :: x in D ==> exists k :: 0 <= k < 4 && Nbr(v, p, k) in D
    ensures D == {}
  {
    ConnSelf(b, v, p);
    forall k | 0 <= k < 4
      ensures Nbr(v, p, k) !in D
    {
      assert Adj(v, p, Nbr(v, p, k));
    }
    assert !exists k :: 0 <= k < 4 && Nbr(v, p, k) in D;
    assert forall x :: x !in D;
  }

  lemma TakenBesideP(b: Board, v: nat, p: int, flags: seq<bool>, D: set<int>)
    requires |flags| == 4 && 2 <= v <= p < |b| - v && D == {} + Taken(b, v, p, flags, 0)
    ensures forall x :: x in D ==> exists k :: 0 <= k < 4 && Nbr(v, p, k) in D
  {
    forall x | x in D
      ensures exists k :: 0 <= k < 4 && Nbr(v, p, k) in D
    {
      TakenBy(b, v, p, flags, 0, x);
      var j :| 0 <= j < 4 && flags[j] && x in Group(b, v, Nbr(v, p, j));
      ConnSelf(b, v, Nbr(v, p, j));
      TakenHolds(b, v, p, flags, 0, j, Nbr(v, p, j));
    }
  }

  /** Taking back an accepted or rejected move restores the position before it:
      board, union-find array, log and captures, and the hash if h is its hash. */
  lemma MoveRetracts(e: Env, s: Pos, p: int, c: int, h: Hash)
    requires CanMove(e, s, p, c)
    ensures var m := Move(e, s, p, c); Retract(e, m.look.pos, p, c, m.taken, m.self, h) == s.(hash := h)
  {
    hide LookAround, Fill, Refill;
    var w := MoveScans(e, s, p, c);
    var b0 := s.board[p := c];
    var a := Scanned(e, s, p, c);
    var t := a.0.pos;
    var D := {} + Taken(b0, e.v, p, a.1, 0);
    var m := Move(e, s, p, c);
    var f := if m.self then Fill(e, m.look.pos, p, c) else Refill(e, m.look.pos, p, Other(c), m.taken, 0);
    if m.self {
      TakenBesideP(b0, e.v, p, a.1, D);
      SuicideRefills(e, t, b0, w, a.0.root, p, c, D);
    } else {
      assert a.1[0..] == a.1;
      RefillRestores(e, t, b0, p, Other(c), a.1, 0, D);
      assert Emptied(b0, D - Taken(b0, e.v, p, a.1, 0)) == b0;
      LoggedSame(t, f);
    }
    MoveUnwinds(e, s, p, c, t, f, h);
  }

  /** A sound position has the one right hash. */
  lemma HashIsRight(e: Env, s: Pos, h: Hash)
    requires Sound(e, s)
    ensures Sound(e, s.(hash := h)) <==> h == s.hash
  {
    hide Tallied, Standing;
    if Sound(e, s.(hash := h)) {
      SameBoardSameHash(e, s, s.(hash := h));
    }
  }

  /** Taking a move back leaves a sound position exactly if the hash that was
      recorded for the position before the move is the hash it had. */
  lemma RetractSound(e: Env, s: Pos, p: int, c: int, h: Hash)
    requires CanMove(e, s, p, c)
    ensures var m := Move(e, s, p, c); Sound(e, Retract(e, m.look.pos, p, c, m.taken, m.self, h)) <==> h == s.hash
  {
    hide Move, Retract, Tallied, Standing;
    MoveRetracts(e, s, p, c, h);
    HashIsRight(e, s, h);
  }

  /** Of each colour the stones captured and those on the board stay as many as were
      played. */
  lemma CapturesCounted(e: Env, s: Pos, p: int, c: int, k: int)
    requires CanMove(e, s, p, c) && IsStone(k)
    ensures var u := Move(e, s, p, c).look.pos;
            && |u.caps| == |s.caps| == 4
            && u.caps[k] + Count(u.board, k) == s.caps[k] + Count(s.board, k) + if k == c then 1 else 0
  {
    hide Move, Standing, Tallied, Count;
    MoveRecords(e, s, p, c);
    CountUpdate(s.board, p, c, k);
  }

  lemma MoveUnwinds(e: Env, s: Pos, p: int, c: int, t: Pos, f: Pos, h: Hash)
    requires Shape(e, s) && 0 < p < |s.board| && s.board[p] == EMPTY && |t.uf| == |s.uf|
    requires Logged(Place(e, s, p, c), t) && Balanced(Place(e, s, p, c), t)
    requires Logged(t, f) && Balanced(t, f) && f.board == s.board[p := c]
    ensures Pos(f.board[p := EMPTY], Unwind(f.uf, f.log).0, Unwind(f.uf, f.log).1, h, f.caps) == s.(hash := h)
  {
    var q := Place(e, s, p, c);
    var marked := s.(board := s.board[p := c], hash := Xor(s.hash, e.zob(p, c)), log := s.log + [MARK]);
    UfSetLogged(marked, p, 0);
    LoggedTrans(marked, q, t);
    LoggedTrans(marked, t, f);
    UnwindToMark(s, marked, f);
    BalancedTrans(q, t, f);
    CapsBack(q, f);
    assert f.board[p := EMPTY] == s.board;
  }

  // Following uf in the middle of a move ------------------------------------------------

  lemma TreesGround(s: Pos, v: nat, w: Witness, c: int)
    requires Trees(s.board, v, s.uf, w, c)
    ensures Grounded(s, c)
  {
    forall p | 0 <= p < |s.uf| && s.board[p] == c
      ensures Ends(s.uf, p)
    {
      assert Linked(s.board, s.uf, w, c, p);
      var n := RootWalk(s.board, v, s.uf, w, c, p);
    }
  }

  ghost predicate AllGrounded(s: Pos)
    requires |s.uf| == |s.board|
  {
    Grounded(s, BLACK) && Grounded(s, WHITE)
  }

  lemma AlongGrounds(e: Env, b0: Board, g: Look, p: int, c: int, d: nat, D: set<int>, w: Witness)
    requires Along(e, b0, g, p, c, d, D, w)
    ensures AllGrounded(g.pos)
  {
    TreesGround(g.pos, e.v, w, c);
    TreesGround(g.pos, e.v, w, Other(c));
  }

  lemma SoundGrounds(e: Env, s: Pos)
    requires Sound(e, s)
    ensures AllGrounded(s)
  {
    var w :| Standing(s.board, e.v, s.uf, w);
    TreesGround(s, e.v, w, BLACK);
    TreesGround(s, e.v, w, WHITE);
  }

  ghost predicate LooksOn(e: Env, g: Look, p: int, c: int, d: nat)
    requires d <= 4
    decreases 4 - d
  {
    && LookShape(e, g)
    && AllGrounded(g.pos)
    && 2 <= e.v <= p < |g.pos.board| - e.v
    && (d < 4 ==> LooksOn(e, Neighbour(e, g, Nbr(e.v, p, d), c).0, p, c, d + 1))
  }

  lemma {:induction false} AlongLooksOn(e: Env, b0: Board, g: Look, p: int, c: int, d: nat, D: set<int>, w: Witness)
    requires Along(e, b0, g, p, c, d, D, w)
    ensures LooksOn(e, g, p, c, d)
    decreases 4 - d
  {
    AlongGrounds(e, b0, g, p, c, d, D, w);
    if d < 4 {
      var a := Neighbour(e, g, Nbr(e.v, p, d), c);
      var D1 := if a.1 then D + Group(b0, e.v, Nbr(e.v, p, d)) else D;
      var w1 := NeighbourScansTo(e, b0, g, p, c, d, D, w, a, D1);
      AlongLooksOn(e, b0, a.0, p, c, d + 1, D1, w1);
    }
  }

  /** All through a move the union-find array can be followed to roots. */
  lemma MoveLooksOn(e: Env, s: Pos, p: int, c: int)
    requires CanMove(e, s, p, c)
    ensures LooksOn(e, Look(Place(e, s, p, c), p, 0), p, c, 0)
  {
    var w0 :| Standing(s.board, e.v, s.uf, w0);
    var w1 := PlaceScans(e, s, p, c, w0);
    AlongLooksOn(e, s.board[p := c], Look(Place(e, s, p, c), p, 0), p, c, 0, {}, w1);
  }

  /** Dead-stone removal leaves a sound position. */
  lemma RemovalSound(e: Env, s: Pos, p: int)
    requires Sound(e, s) && 0 <= p < |s.board| && IsStone(s.board[p])
    ensures var r := Capture(e, s, p, s.board[p]);
            && Sound(e, r.0)
            && r.0.board == Repaint(s.board, e.v, p, EMPTY)
            && r.1 == |Group(s.board, e.v, p)| > 0
            && Balanced(s, r.0)
  {
    hide Trees, WholeBut, Edges, Tallied, Capture, Conn, Count, Balanced, LogFits;
    var w :| Standing(s.board, e.v, s.uf, w);
    var c := s.board[p];
    var r := Capture(e, s, p, c);
    CaptureCredits(e, s, p, c, w);
    CaptureTallied(e, s, p, c);
    CaptureLogged(e, s, p, c, w);
    LoggedFits(s, r.0);
    FellStands(s.board, e.v, s.uf, r.0.board, r.0.uf, w, c, p);
    var G := Group(s.board, e.v, p);
    GroupClosed(s.board, e.v, p);
    forall x | x in G
      ensures s.board[x] == c
    {
      ConnInside(s.board, e.v, p, x);
    }
    assert r.0.board == Emptied(s.board, G);
    assert Emptied(s.board, {}) == s.board && {} + G == G;
    CapturedCount(s.board, c, {}, G);
  }
}
