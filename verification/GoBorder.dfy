/** The border never changes, so a score always accounts for every point of
    the board. */
module GoBorder {
  import opened GoBoard
  import opened GoRules
  import opened GoEngine
  import opened GoPlay
  import opened GoHistory
  import opened GoStart
  import opened GoScore

  ghost predicate Bordered(b: Board, width: nat, height: nat) {
    && |b| == BoardSize(width, height)
    && forall x {:trigger b[x]} :: 0 <= x < |b| ==> (b[x] == EDGE <==> IsBorder(width, height, x))
  }

  ghost predicate SameEdges(b: Board, b': Board) {
    |b'| == |b| && forall x {:trigger b'[x]} :: 0 <= x < |b| ==> (b'[x] == EDGE <==> b[x] == EDGE)
  }

  lemma StepKeepsEdges(t: Terms, s: Pos, u: Pos, prev: MoveRec, m: MoveRec, nr: nat)
    requires Step(t, s, u, prev, m, nr)
    ensures SameEdges(s.board, u.board)
  {
    hide Move, Standing, PlaceStar;
    if m.point >= 0 {
      MoveFollowsRules(t.e, s, m.point, ColourOf(nr + 1));
    } else if m.point < PASS {
      StarsPlaced(t, s, FIRST, |t.stars|);
      forall x | 0 <= x < |s.board|
        ensures u.board[x] == EDGE <==> s.board[x] == EDGE
      {
        if x in t.stars[..|t.stars|] {
          var k :| 0 <= k < |t.stars| && t.stars[k] == x;
          StarIn(t, k);
        }
      }
    }
  }

  lemma {:induction false} HistoryBordered(t: Terms, trail: seq<Pos>, moves: seq<MoveRec>, n: nat, width: nat,
      height: nat, i: nat)
    requires History(t, trail, moves, n) && t.start == StartBoard(width, height) && i <= n
    ensures Bordered(trail[i].board, width, height)
    decreases i
  {
    hide Step, Sound;
    if i > 0 {
      HistoryBordered(t, trail, moves, n, width, height, i - 1);
      var k := i - 1;
      assert Step(t, trail[k], trail[k + 1], moves[k], moves[k + 1], k);
      StepKeepsEdges(t, trail[i - 1], trail[i], moves[i - 1], moves[i], i - 1);
    }
  }

  lemma StartBordered(width: nat, height: nat)
    ensures Bordered(StartBoard(width, height), width, height)
  {
  }

  lemma PlayKeepsEdges(b: Board, v: nat, p: int, c: int)
    requires 0 <= p < |b| && b[p] == EMPTY && IsStone(c)
    ensures SameEdges(b, PlayOn(b, v, p, c))
  {
    hide HasLiberty;
  }

  lemma EdgesBorder(b: Board, b': Board, width: nat, height: nat)
    requires SameEdges(b, b')
    ensures Bordered(b', width, height) <==> Bordered(b, width, height)
  {
    hide IsBorder, BoardSize;
    forall x | 0 <= x < |b|
      ensures b'[x] == EDGE <==> b[x] == EDGE
    {
    }
  }

  /** A move changes no border point. */
  lemma MoveKeepsBorder(e: Env, s: Pos, p: int, c: int, width: nat, height: nat)
    requires CanMove(e, s, p, c)
    ensures Bordered(Move(e, s, p, c).look.pos.board, width, height) <==> Bordered(s.board, width, height)
  {
    hide Move, Standing, Sound, Bordered, SameEdges, PlayOn;
    MoveFollowsRules(e, s, p, c);
    PlayKeepsEdges(s.board, e.v, p, c);
    EdgesBorder(s.board, PlayOn(s.board, e.v, p, c), width, height);
  }

  /** Taking dead stones off the board leaves the border alone. */
  lemma RemovalBordered(b: Board, width: nat, height: nat, p: int)
    requires Bordered(b, width, height) && 0 <= p < |b| && IsStone(b[p])
    ensures Bordered(Repaint(b, width + 1, p, EMPTY), width, height)
  {
  }

  lemma BorderedInner(b: Board, width: nat, height: nat)
    requires Bordered(b, width, height) && Coloured(b)
    ensures Inner(b, width + 1)
  {
    var v := width + 1;
    assert |b| == v * (height + 1) + v;
    assert IsBorder(width, height, v) by {
      ModSmall(v, 1, 0);
    }
  }

  // Counting the points inside the border --------------------------------------------------

  predicate InRow(p: int, start: int, w: nat) {
    start < p <= start + w
  }

  /** The points in columns 1 to w of row y. */
  ghost function Row(v: nat, y: nat, w: nat): set<int> {
    set p | y * v < p <= y * v + w && InRow(p, y * v, w)
  }

  lemma {:induction false} RowSize(v: nat, y: nat, w: nat)
    ensures |Row(v, y, w)| == w
    decreases w
  {
    if w == 0 {
      assert Row(v, y, 0) == {};
    } else {
      RowSize(v, y, w - 1);
      assert Row(v, y, w) == Row(v, y, w - 1) + {y * v + w};
    }
  }

  /** The points in rows 1 to h. */
  ghost function Grid(width: nat, h: nat): set<int>
    decreases h
  {
    if h == 0 then {} else Grid(width, h - 1) + Row(width + 1, h, width)
  }

  lemma {:induction false} GridSize(width: nat, h: nat)
    ensures |Grid(width, h)| == width * h
    ensures forall p :: p in Grid(width, h) ==> 0 <= p < (h + 1) * (width + 1)
    decreases h
  {
    if h > 0 {
      GridSize(width, h - 1);
      RowSize(width + 1, h, width);
      assert (h + 1) * (width + 1) == h * (width + 1) + width + 1;
      assert width * h == width * (h - 1) + width;
      assert Grid(width, h - 1) !! Row(width + 1, h, width);
    }
  }

  lemma {:induction false} GridIs(width: nat, h: nat, p: int)
    ensures p in Grid(width, h) <==> 0 <= p && p % (width + 1) != 0 && width + 1 <= p < (width + 1) * (h + 1)
    decreases h
  {
    var v := width + 1;
    assert v * (h + 1) == v * h + v && h * v == v * h;
    if h > 0 {
      GridIs(width, h - 1, p);
      assert v * (h - 1 + 1) == v * h;
      if v * h <= p < v * h + v {
        ModSmall(v, h, p - v * h);
      }
    }
  }

  lemma BoardPoints(b: Board, width: nat, height: nat)
    requires Bordered(b, width, height)
    ensures |OnBoard(b)| == width * height
  {
    GridSize(width, height);
    var v := width + 1;
    assert |b| == v * (height + 1) + v;
    forall p
      ensures p in OnBoard(b) <==> p in Grid(width, height)
    {
      GridIs(width, height, p);
    }
    assert OnBoard(b) == Grid(width, height);
  }

  /** Occupied points, territory and neutral points add up to width times height. */
  lemma ScoreCoversBoard(b: Board, width: nat, height: nat)
    requires Bordered(b, width, height) && Coloured(b)
    ensures Count(b, BLACK) + Count(b, WHITE) + |Territory(b, width + 1, BLACK)| + |Territory(b, width + 1, WHITE)|
            + |Neutral(b, width + 1)| == width * height
  {
    ScoreSums(b, width + 1);
    BoardPoints(b, width, height);
  }
}
