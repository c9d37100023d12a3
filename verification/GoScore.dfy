/** Counting the score: empty regions are flooded twice, first to find out which
    colours they touch and then to mark them with their owner. */
module GoScore {
  import opened GoBoard
  import opened GoEngine

  /** The value of an empty point that is marked; a marked point with an owner
      holds this plus its colour. */
  const MARKED := 4

  /** Bitwise or of three-bit numbers. */
  function Or(x: int, y: int): (r: int)
    ensures 0 <= r < 8
  {
    (if x % 2 == 1 || y % 2 == 1 then 1 else 0) +
    (if x / 2 % 2 == 1 || y / 2 % 2 == 1 then 2 else 0) +
    (if x / 4 % 2 == 1 || y / 4 % 2 == 1 then 4 else 0)
  }

  lemma OrFour(a: int, b: int, c: int, d: int)
    requires 0 <= d < 8
    ensures Or(a, Or(b, Or(c, Or(d, 0)))) == Or(Or(Or(a, b), c), d)
  {
  }

  ghost predicate Markable(b: Board, v: nat) {
    Framed(b, v) && forall x {:trigger b[x]} :: 0 <= x < |b| ==> -1 <= b[x] < 8
  }

  /** Mark the empty region at p and tell which colours were met. */
  ghost function FindOwner(b: Board, v: nat, p: int): (r: (Board, int))
    requires Markable(b, v) && 0 <= p < |b|
    ensures |r.0| == |b| && Markable(r.0, v) && Count(r.0, EMPTY) <= Count(b, EMPTY) && 0 <= r.1 < 8
    decreases Count(b, EMPTY), 0
  {
    if b[p] == EDGE || b[p] == MARKED then (b, 0)
    else if b[p] != EMPTY then (b, b[p])
    else
      CountUpdate(b, p, MARKED, EMPTY);
      FindAround(b[p := MARKED], v, p, 0)
  }

  ghost function FindAround(b: Board, v: nat, p: int, d: nat): (r: (Board, int))
    requires Markable(b, v) && 2 <= v <= p < |b| - v && d <= 4
    ensures |r.0| == |b| && Markable(r.0, v) && Count(r.0, EMPTY) <= Count(b, EMPTY) && 0 <= r.1 < 8
    decreases Count(b, EMPTY), 5 - d
  {
    if d == 4 then (b, 0)
    else
      var a := FindOwner(b, v, Nbr(v, p, d));
      var r := FindAround(a.0, v, p, d + 1);
      (r.0, Or(a.1, r.1))
  }

  /** Give the marked region at p the owner c. */
  ghost function SetOwner(b: Board, v: nat, p: int, c: int): (r: Board)
    requires Markable(b, v) && 0 <= p < |b| && 0 < c < 4
    ensures |r| == |b| && Markable(r, v) && Count(r, MARKED) <= Count(b, MARKED)
    decreases Count(b, MARKED), 0
  {
    if b[p] == MARKED then
      CountUpdate(b, p, MARKED + c, MARKED);
      SetAround(b[p := MARKED + c], v, p, c, 0)
    else b
  }

  ghost function SetAround(b: Board, v: nat, p: int, c: int, d: nat): (r: Board)
    requires Markable(b, v) && 2 <= v <= p < |b| - v && 0 < c < 4 && d <= 4
    ensures |r| == |b| && Markable(r, v) && Count(r, MARKED) <= Count(b, MARKED)
    decreases Count(b, MARKED), 5 - d
  {
    if d == 4 then b else SetAround(SetOwner(b, v, Nbr(v, p, d), c), v, p, c, d + 1)
  }

  lemma {:induction false} SetOwnerFloods(b: Board, v: nat, p: int, c: int)
    requires Markable(b, v) && 0 <= p < |b| && 0 < c < 4
    ensures SetOwner(b, v, p, c) == Flood(b, v, p, MARKED, MARKED + c)
    decreases Count(b, MARKED), 0
  {
    if b[p] == MARKED {
      CountUpdate(b, p, MARKED + c, MARKED);
      SetAroundFloods(b[p := MARKED + c], v, p, c, 0);
      FloodIsRepaint(b, v, p, MARKED + c);
    }
  }

  lemma {:induction false} SetAroundFloods(b: Board, v: nat, p: int, c: int, d: nat)
    requires Markable(b, v) && 2 <= v <= p < |b| - v && 0 < c < 4 && d <= 4
    ensures SetAround(b, v, p, c, d) == FloodAround(b, v, p, MARKED, MARKED + c, d)
    decreases Count(b, MARKED), 5 - d
  {
    if d < 4 {
      SetOwnerFloods(b, v, Nbr(v, p, d), c);
      SetAroundFloods(SetOwner(b, v, Nbr(v, p, d), c), v, p, c, d + 1);
    }
  }

  // Which colours a region touches -------------------------------------------------------

  ghost predicate Touches(b: Board, v: nat, p: int, c: int) {
    exists x, y :: Conn(b, v, p, x) && Adj(v, x, y) && 0 <= y < |b| && b[y] == c
  }

  /** The colours that the empty region of p touches, one bit each. */
  ghost function Owner(b: Board, v: nat, p: int): (r: int)
    ensures 0 <= r < 4
  {
    (if Touches(b, v, p, BLACK) then BLACK else 0) + (if Touches(b, v, p, WHITE) then WHITE else 0)
  }

  /** From b to b' an empty point next to a point of colour c was marked. */
  ghost predicate Meets(b: Board, b': Board, v: nat, c: int)
    requires |b'| == |b|
  {
    exists x, y {:trigger Adj(v, x, y)} ::
      0 <= x < |b| && 0 <= y < |b| && b[x] == EMPTY && b'[x] != EMPTY && Adj(v, x, y) && b[y] == c
  }

  /** Empty points become marked, nothing else changes. */
  ghost predicate Marks(b: Board, b': Board) {
    |b'| == |b| && forall x {:trigger b'[x]} :: 0 <= x < |b| ==> b'[x] == b[x] || (b[x] == EMPTY && b'[x] == MARKED)
  }

  /** Points next to empty ones carry no owner. */
  ghost predicate Clear(b: Board, v: nat) {
    forall x, y {:trigger Adj(v, x, y)} :: 0 <= x < |b| && 0 <= y < |b| && b[x] == EMPTY && Adj(v, x, y) ==>
      b[y] <= MARKED && b[y] != 3
  }

  function Bit(x: int, c: int): bool
    requires IsStone(c)
  {
    x / c % 2 == 1
  }

  lemma OrBits(x: int, y: int, c: int)
    requires IsStone(c)
    ensures Bit(Or(x, y), c) <==> Bit(x, c) || Bit(y, c)
    ensures 0 <= x < 4 && 0 <= y < 4 ==> Or(x, y) < 4
  {
  }

  lemma MeetsTrans(b: Board, b': Board, b'': Board, v: nat, c: int)
    requires Marks(b, b') && Marks(b', b'') && IsStone(c)
    ensures Marks(b, b'') && (Meets(b, b'', v, c) <==> Meets(b, b', v, c) || Meets(b', b'', v, c))
  {
    if Meets(b, b'', v, c) {
      var x, y :| 0 <= x < |b| && 0 <= y < |b| && b[x] == EMPTY && b''[x] != EMPTY && Adj(v, x, y) && b[y] == c;
      assert b'[y] == c;
      assert b'[x] == EMPTY || b'[x] == MARKED;
    }
    if Meets(b, b', v, c) {
      var x, y :| 0 <= x < |b| && 0 <= y < |b| && b[x] == EMPTY && b'[x] != EMPTY && Adj(v, x, y) && b[y] == c;
      assert b''[x] == MARKED;
    }
    if Meets(b', b'', v, c) {
      var x, y :| 0 <= x < |b| && 0 <= y < |b| && b'[x] == EMPTY && b''[x] != EMPTY && Adj(v, x, y) && b'[y] == c;
      assert b[y] == c;
    }
  }

  ghost predicate NextTo(b: Board, v: nat, p: int, c: int, d: nat)
    requires 2 <= v <= p < |b| - v
  {
    exists k {:trigger Nbr(v, p, k)} :: d <= k < 4 && b[Nbr(v, p, k)] == c
  }

  lemma MeetsAtPoint(b: Board, v: nat, p: int, c: int)
    requires 2 <= v <= p < |b| - v && b[p] == EMPTY && IsStone(c)
    ensures Marks(b, b[p := MARKED])
    ensures Meets(b, b[p := MARKED], v, c) <==> NextTo(b[p := MARKED], v, p, c, 0)
  {
    var b' := b[p := MARKED];
    if Meets(b, b', v, c) {
      var x, y :| 0 <= x < |b| && 0 <= y < |b| && b[x] == EMPTY && b'[x] != EMPTY && Adj(v, x, y) && b[y] == c;
      var k := if y == p - v then 0 else if y == p - 1 then 1 else if y == p + 1 then 2 else 3;
      assert b'[Nbr(v, p, k)] == c;
    }
    if NextTo(b', v, p, c, 0) {
      var k :| 0 <= k < 4 && b'[Nbr(v, p, k)] == c;
      assert Adj(v, p, Nbr(v, p, k));
    }
  }

  /** FindOwner floods the region with marks and returns the colours met. */
  lemma {:induction false} FindOwnerFloods(b: Board, v: nat, p: int, c: int)
    requires Markable(b, v) && Clear(b, v) && 0 <= p < |b| && b[p] <= MARKED && b[p] != 3 && IsStone(c)
    ensures var r := FindOwner(b, v, p);
            && r.0 == Flood(b, v, p, EMPTY, MARKED) && Marks(b, r.0)
            && r.1 < 4 && (Bit(r.1, c) <==> b[p] == c || Meets(b, r.0, v, c))
    decreases Count(b, EMPTY), 0
  {
    if b[p] == EMPTY {
      CountUpdate(b, p, MARKED, EMPTY);
      var r := FindAround(b[p := MARKED], v, p, 0);
      MeetsAtPoint(b, v, p, c);
      forall k | 0 <= k < 4
        ensures b[Nbr(v, p, k)] <= MARKED && b[Nbr(v, p, k)] != 3
      {
        assert Adj(v, p, Nbr(v, p, k));
      }
      FindAroundFloods(b[p := MARKED], v, p, 0, c);
      MeetsTrans(b, b[p := MARKED], r.0, v, c);
      FloodIsRepaint(b, v, p, MARKED);
    }
  }

  lemma {:induction false} FindAroundFloods(b: Board, v: nat, p: int, d: nat, c: int)
    requires Markable(b, v) && Clear(b, v) && 2 <= v <= p < |b| - v && d <= 4 && IsStone(c)
    requires forall k {:trigger Nbr(v, p, k)} :: 0 <= k < 4 ==> b[Nbr(v, p, k)] <= MARKED && b[Nbr(v, p, k)] != 3
    ensures var r := FindAround(b, v, p, d);
            && r.0 == FloodAround(b, v, p, EMPTY, MARKED, d) && Marks(b, r.0)
            && r.1 < 4 && (Bit(r.1, c) <==> NextTo(b, v, p, c, d) || Meets(b, r.0, v, c))
    decreases Count(b, EMPTY), 5 - d
  {
    if d < 4 {
      var n := Nbr(v, p, d);
      var a := FindOwner(b, v, n);
      var r := FindAround(a.0, v, p, d + 1);
      assert FindAround(b, v, p, d) == (r.0, Or(a.1, r.1));
      FindOwnerFloods(b, v, n, c);
      FindAroundFloods(a.0, v, p, d + 1, c);
      OrBits(a.1, r.1, c);
      MeetsTrans(b, a.0, r.0, v, c);
      NextToSplits(b, a.0, v, p, c, d);
    }
  }

  lemma NextToSplits(b: Board, b': Board, v: nat, p: int, c: int, d: nat)
    requires 2 <= v <= p < |b| - v && Marks(b, b') && IsStone(c) && d < 4
    ensures NextTo(b, v, p, c, d) <==> b[Nbr(v, p, d)] == c || NextTo(b', v, p, c, d + 1)
  {
    if NextTo(b, v, p, c, d) {
      var k :| d <= k < 4 && b[Nbr(v, p, k)] == c;
      assert b'[Nbr(v, p, k)] == c;
    }
  }

  /** The owner found is the set of colours that the region touches. */
  lemma FindOwnerIsOwner(b: Board, v: nat, p: int)
    requires Markable(b, v) && Clear(b, v) && 0 <= p < |b| && b[p] == EMPTY
    ensures FindOwner(b, v, p) == (Repaint(b, v, p, MARKED), Owner(b, v, p))
  {
    hide FindOwner, Clear, Markable, Meets, Conn;
    var r := FindOwner(b, v, p);
    FindOwnerFloods(b, v, p, BLACK);
    FindOwnerFloods(b, v, p, WHITE);
    MeetsIsTouches(b, v, p, BLACK);
    MeetsIsTouches(b, v, p, WHITE);
  }

  lemma MeetsIsTouches(b: Board, v: nat, p: int, c: int)
    requires 0 <= p < |b| && b[p] == EMPTY
    ensures Meets(b, Repaint(b, v, p, MARKED), v, c) <==> Touches(b, v, p, c)
  {
    var b' := Repaint(b, v, p, MARKED);
    if Touches(b, v, p, c) {
      var x, y :| Conn(b, v, p, x) && Adj(v, x, y) && 0 <= y < |b| && b[y] == c;
      ConnInside(b, v, p, x);
      assert b'[x] == MARKED;
    }
  }

  // Marking region after region ------------------------------------------------------------

  /** The points of V, whole empty regions, marked with their owners. */
  ghost function Scored(b: Board, v: nat, V: set<int>): (r: Board)
    ensures |r| == |b|
  {
    seq(|b|, x requires 0 <= x < |b| => if x in V then MARKED + Owner(b, v, x) else b[x])
  }

  ghost predicate Regions(b: Board, v: nat, V: set<int>) {
    Closed(b, v, EMPTY, V) && forall x :: x in V ==> 0 <= x < |b| && b[x] == EMPTY
  }

  /** A region that is painted over whole, with nothing else of the new colour
      next to it, is still a region. */
  lemma RegionStays(b: Board, b': Board, v: nat, p: int, k: int)
    requires 0 <= p < |b| == |b'|
    requires forall x :: x in Group(b, v, p) ==> b'[x] == k
    requires forall x, y :: x in Group(b, v, p) && Adj(v, x, y) && 0 <= y < |b| && y !in Group(b, v, p) ==> b'[y] != k
    ensures Group(b', v, p) == Group(b, v, p)
  {
    var G := Group(b, v, p);
    ConnSelf(b, v, p);
    ConnSelf(b', v, p);
    forall x | 0 <= x < |b|
      ensures Conn(b', v, p, x) <==> Conn(b, v, p, x)
    {
      if Conn(b', v, p, x) {
        ConnClosed(b', v, G, p, x);
      }
      if Conn(b, v, p, x) {
        var T := G * Group(b', v, p);
        GroupClosed(b', v, p);
        GroupClosed(b, v, p);
        assert Closed(b, v, b[p], T);
        ConnClosed(b, v, T, p, x);
      }
    }
  }

  lemma UnmarkedRegion(b: Board, v: nat, V: set<int>, p: int)
    requires Regions(b, v, V) && 0 <= p < |b| && b[p] == EMPTY && p !in V && Coloured(b)
    ensures Group(b, v, p) !! V && Regions(b, v, V + Group(b, v, p))
    ensures Group(Scored(b, v, V), v, p) == Group(b, v, p)
    ensures Owner(Scored(b, v, V), v, p) == Owner(b, v, p)
  {
    var G, s := Group(b, v, p), Scored(b, v, V);
    GroupClosed(b, v, p);
    forall x | x in G
      ensures x !in V
    {
      if x in V {
        ConnSym(b, v, p, x);
        ConnClosed(b, v, V, x, p);
      }
    }
    RegionStays(b, s, v, p, EMPTY);
    SameTouches(b, s, v, p, BLACK);
    SameTouches(b, s, v, p, WHITE);
  }

  lemma SameTouches(b: Board, s: Board, v: nat, p: int, c: int)
    requires |s| == |b| && Group(s, v, p) == Group(b, v, p)
    requires forall y {:trigger s[y]} :: 0 <= y < |b| ==> (s[y] == c <==> b[y] == c)
    ensures Touches(s, v, p, c) <==> Touches(b, v, p, c)
  {
    if Touches(s, v, p, c) {
      var x, y :| Conn(s, v, p, x) && Adj(v, x, y) && 0 <= y < |b| && s[y] == c;
      ConnInside(s, v, p, x);
      assert x in Group(b, v, p);
    }
    if Touches(b, v, p, c) {
      var x, y :| Conn(b, v, p, x) && Adj(v, x, y) && 0 <= y < |b| && b[y] == c;
      ConnInside(b, v, p, x);
      assert x in Group(s, v, p);
      assert s[y] == c;
    }
  }

  lemma SameOwner(b: Board, v: nat, p: int, x: int)
    requires Conn(b, v, p, x)
    ensures Owner(b, v, x) == Owner(b, v, p)
  {
    ConnInside(b, v, p, x);
    ConnSelf(b, v, x);
    GroupsMeet(b, v, p, x, x);
    forall c
      ensures Touches(b, v, x, c) <==> Touches(b, v, p, c)
    {
      SameTouches2(b, v, p, x, c);
    }
  }

  lemma SameTouches2(b: Board, v: nat, p: int, x: int, c: int)
    requires Group(b, v, p) == Group(b, v, x)
    ensures Touches(b, v, x, c) <==> Touches(b, v, p, c)
  {
    if Touches(b, v, x, c) {
      var z, y :| Conn(b, v, x, z) && Adj(v, z, y) && 0 <= y < |b| && b[y] == c;
      ConnInside(b, v, x, z);
      assert z in Group(b, v, p);
    }
    if Touches(b, v, p, c) {
      var z, y :| Conn(b, v, p, z) && Adj(v, z, y) && 0 <= y < |b| && b[y] == c;
      ConnInside(b, v, p, z);
      assert z in Group(b, v, x);
    }
  }

  lemma ScoredFits(b: Board, v: nat, V: set<int>)
    requires Framed(b, v) && Coloured(b) && Regions(b, v, V)
    ensures Markable(Scored(b, v, V), v) && Clear(Scored(b, v, V), v)
  {
    var s := Scored(b, v, V);
    forall x, y | 0 <= x < |s| && 0 <= y < |s| && s[x] == EMPTY && Adj(v, x, y)
      ensures s[y] <= MARKED && s[y] != 3
    {
      assert Adj(v, y, x);
    }
  }

  /** Marking the region at p, and giving it its owner if it has any, is one
      more region scored. */
  lemma ScoreNext(b: Board, v: nat, V: set<int>, p: int)
    requires Framed(b, v) && Coloured(b) && Regions(b, v, V) && 0 <= p < |b| && b[p] == EMPTY && p !in V
    ensures var s := Scored(b, v, V); var V' := V + Group(b, v, p); var own := Owner(b, v, p);
            && Markable(s, v) && Regions(b, v, V') && p in V'
            && FindOwner(s, v, p).1 == own
            && Scored(b, v, V') == if own != 0 then SetOwner(FindOwner(s, v, p).0, v, p, own) else FindOwner(s, v, p).0
  {
    var s, V', own := Scored(b, v, V), V + Group(b, v, p), Owner(b, v, p);
    ScoredFits(b, v, V);
    UnmarkedRegion(b, v, V, p);
    FindOwnerIsOwner(s, v, p);
    GroupClosed(b, v, p);
    var m := Repaint(s, v, p, MARKED);
    forall x | 0 <= x < |b|
      ensures Conn(s, v, p, x) <==> x in Group(b, v, p)
    {
      assert x in Group(s, v, p) <==> x in Group(b, v, p);
    }
    RegionStays(b, m, v, p, MARKED);
    if own != 0 {
      SetOwnerFloods(m, v, p, own);
    }
    var r := if own != 0 then SetOwner(m, v, p, own) else m;
    forall x | 0 <= x < |b|
      ensures r[x] == Scored(b, v, V')[x]
    {
      assert x in Group(m, v, p) <==> x in Group(b, v, p);
      if x in Group(b, v, p) {
        SameOwner(b, v, p, x);
      }
    }
  }

  // Counting ---------------------------------------------------------------------------------

  /** The empty points whose region touches colour c and not the other. */
  ghost function Territory(b: Board, v: nat, c: int): set<int> {
    set p | 0 <= p < |b| && b[p] == EMPTY && Touches(b, v, p, c) && !Touches(b, v, p, Other(c))
  }

  /** The empty points whose region touches both colours or none. */
  ghost function Neutral(b: Board, v: nat): set<int> {
    set p | 0 <= p < |b| && b[p] == EMPTY && (Touches(b, v, p, BLACK) <==> Touches(b, v, p, WHITE))
  }

  function OnBoard(b: Board): set<int> {
    set p | 0 <= p < |b| && b[p] != EDGE
  }

  /** Stones, territory and neutral points make up the whole board. */
  lemma ScoreSums(b: Board, v: nat)
    requires Coloured(b)
    ensures Count(b, BLACK) + Count(b, WHITE) + |Territory(b, v, BLACK)| + |Territory(b, v, WHITE)| + |Neutral(b, v)| ==
      |OnBoard(b)|
  {
    var B, W, N := Territory(b, v, BLACK), Territory(b, v, WHITE), Neutral(b, v);
    assert Points(b, BLACK) !! Points(b, WHITE);
    assert Points(b, BLACK) + Points(b, WHITE) !! B;
    assert Points(b, BLACK) + Points(b, WHITE) + B !! W;
    assert Points(b, BLACK) + Points(b, WHITE) + B + W !! N;
    assert Points(b, BLACK) + Points(b, WHITE) + B + W + N == OnBoard(b);
  }

  ghost function Below(S: set<int>, n: int): set<int> {
    set x | x in S && x < n
  }

  lemma BelowNext(S: set<int>, n: int)
    ensures |Below(S, n + 1)| == |Below(S, n)| + if n in S then 1 else 0
  {
    if n in S {
      assert Below(S, n + 1) == Below(S, n) + {n};
    } else {
      assert Below(S, n + 1) == Below(S, n);
    }
  }

  /** The board lies between its second row and its last but one, not counting
      the point in column 0 that opens the second row. */
  ghost predicate Inner(b: Board, v: nat) {
    Framed(b, v) && Coloured(b) && v < |b| && b[v] == EDGE
  }

  ghost predicate Tallies(b: Board, v: nat, n: int, bo: int, wo: int, bt: int, wt: int) {
    && bo == |Below(Points(b, BLACK), n)| && wo == |Below(Points(b, WHITE), n)|
    && bt == |Below(Territory(b, v, BLACK), n)| && wt == |Below(Territory(b, v, WHITE), n)|
  }

  lemma ScoreStarts(b: Board, v: nat)
    requires Inner(b, v)
    ensures Tallies(b, v, v + 1, 0, 0, 0, 0) && Regions(b, v, {}) && Scored(b, v, {}) == b
  {
    assert forall x :: 0 <= x <= v ==> b[x] == EDGE;
    assert Below(Points(b, BLACK), v + 1) == {};
    assert Below(Points(b, WHITE), v + 1) == {};
    assert Below(Territory(b, v, BLACK), v + 1) == {};
    assert Below(Territory(b, v, WHITE), v + 1) == {};
  }

  lemma ScoreEnds(b: Board, v: nat, n: int, bo: int, wo: int, bt: int, wt: int)
    requires Inner(b, v) && n >= |b| - v && Tallies(b, v, n, bo, wo, bt, wt)
    ensures bo == Count(b, BLACK) && wo == Count(b, WHITE)
    ensures bt == |Territory(b, v, BLACK)| && wt == |Territory(b, v, WHITE)|
  {
    assert Below(Points(b, BLACK), n) == Points(b, BLACK);
    assert Below(Points(b, WHITE), n) == Points(b, WHITE);
    assert Below(Territory(b, v, BLACK), n) == Territory(b, v, BLACK);
    assert Below(Territory(b, v, WHITE), n) == Territory(b, v, WHITE);
  }

  /** What one point adds, by what it holds once its region is marked. */
  lemma PointCounts(b: Board, v: nat, V: set<int>, p: int, bo: int, wo: int, bt: int, wt: int)
    requires Inner(b, v) && Regions(b, v, V) && 0 <= p < |b|
    requires b[p] == EMPTY && Scored(b, v, V)[p] != EDGE ==> p in V
    requires Tallies(b, v, p, bo, wo, bt, wt)
    ensures var x := Scored(b, v, V)[p];
            Tallies(b, v, p + 1, if x == BLACK then bo + 1 else bo, if x == WHITE then wo + 1 else wo,
                    if x == MARKED + BLACK then bt + 1 else bt, if x == MARKED + WHITE then wt + 1 else wt)
  {
    BelowNext(Points(b, BLACK), p);
    BelowNext(Points(b, WHITE), p);
    BelowNext(Territory(b, v, BLACK), p);
    BelowNext(Territory(b, v, WHITE), p);
  }
}
