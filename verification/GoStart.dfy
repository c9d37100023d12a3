/** The board at the start of a game and the handicap points. */
module GoStart {
  import opened GoBoard
  import opened GoEngine
  import opened GoTally
  import opened GoForest
  import opened GoPlay

  /** Column 0 and the first and last rows; column 0 of the next row also closes
      a row on its right. */
  predicate IsBorder(width: nat, height: nat, p: int) {
    p % (width + 1) == 0 || p < width + 1 || p >= (width + 1) * (height + 1)
  }

  function BoardSize(width: nat, height: nat): nat {
    (width + 1) * (height + 2)
  }

  function StartBoard(width: nat, height: nat): (b: Board)
    ensures |b| == BoardSize(width, height)
  {
    seq(BoardSize(width, height), p requires 0 <= p => if IsBorder(width, height, p) then EDGE else EMPTY)
  }

  lemma StartFramed(width: nat, height: nat)
    ensures Framed(StartBoard(width, height), width + 1) && Coloured(StartBoard(width, height))
  {
    assert BoardSize(width, height) == (width + 1) * (height + 1) + (width + 1);
  }

  /** An empty board is a sound position whatever the union-find array holds. */
  lemma StartSound(e: Env, s: Pos, width: nat, height: nat)
    requires e.v == width + 1 && s.board == StartBoard(width, height)
    requires |s.uf| == |s.board| && |s.caps| == 4 && s.log == [] && s.hash == {}
    ensures Sound(e, s)
  {
    StartFramed(width, height);
    forall i: nat
      ensures |Keyed(e, s.board, i)| == 0
    {
    }
    var w := Witness(seq(|s.board|, i => 0), seq(|s.board|, i => 0));
    assert forall c :: IsStone(c) ==> forall p :: 0 <= p < |s.board| ==> s.board[p] != c;
    assert Standing(s.board, e.v, s.uf, w);
  }

  // Handicap points -------------------------------------------------------------

  /** The stars of a board, each a column letter and a row letter. */
  function Stars(width: nat): string {
    match width
    case 1 => "aa"
    case 5 => "cc"
    case 7 => "dd"
    case 8 => "cccffcff"
    case 9 => "ggcccggccegeecegee"
    case 10 => "hhccchhc"
    case 11 => "iiccciiccfiffcfiff"
    case 12 => "iidddiid"
    case 13 => "jjdddjjddgjggdgjgg"
    case 14 => "kkdddkkd"
    case 15 => "lldddllddhlhhdhlhh"
    case 16 => "mmdddmmd"
    case 17 => "nndddnnddiniidinii"
    case 18 => "oodddood"
    case 19 => "ppdddppddjpjjdjpjj"
    case _ => ""
  }

  /** The table ends at this width. */
  const MAX_WIDTH := 26

  function StarCount(width: nat): nat {
    |Stars(width)| / 2
  }

  lemma StarsWithinTable(width: nat)
    requires StarCount(width) > 0
    ensures width <= MAX_WIDTH
  {
  }

  /** The i-th star of the table, as a point. */
  function StarPoint(width: nat, i: nat): int
    requires i < StarCount(width)
  {
    var s := Stars(width);
    (s[2 * i + 1] as int - 'a' as int + 1) * (width + 1) + (s[2 * i] as int - 'a' as int + 1)
  }

  /** With five or seven stones on a board of nine stars the last goes to the centre. */
  function StarIndex(width: nat, n: nat, i: nat): (k: nat)
    requires i < n <= StarCount(width)
    ensures k < StarCount(width)
  {
    if StarCount(width) == 9 && (n == 5 || n == 7) && i == n - 1 then 8 else i
  }

  /** The points of an n stone handicap; none if the board has fewer stars. */
  function HandicapPoints(width: nat, n: int): seq<int> {
    if 0 < n <= StarCount(width) then seq(n, i requires 0 <= i < n => StarPoint(width, StarIndex(width, n, i))) else []
  }

  // Filling in the border ------------------------------------------------------------

  lemma RowStarts(v: nat, y: nat, x: nat)
    requires 0 < v && y % v == 0 && y <= x < y + v
    ensures x % v == 0 <==> x == y
    ensures (y + v) % v == 0
  {
    var q := y / v;
    assert y == q * v;
    if x != y {
      ModSmall(v, q, x - y);
    }
    ModSmall(v, q + 1, 0);
    assert (q + 1) * v == y + v;
  }

  /** Which points lie in column 0. */
  ghost function LeftEdge(v: nat, n: nat): (r: seq<bool>)
    requires 0 < v
    ensures |r| == n
  {
    seq(n, p requires 0 <= p => p % v == 0)
  }

  lemma LeftEdgeNext(v: nat, n: nat, y: nat)
    requires 0 < v && y < n && y % v == 0
    ensures LeftEdge(v, n)[y] && (y + v) % v == 0
    ensures forall k :: y < k < y + v && k < n ==> !LeftEdge(v, n)[k]
  {
    RowStarts(v, y, y);
    forall k | y < k < y + v
      ensures k % v != 0
    {
      RowStarts(v, y, k);
    }
  }

  lemma LastRowEdge(width: nat, height: nat)
    ensures var n := BoardSize(width, height); LeftEdge(width + 1, n)[n - (width + 1)]
  {
    ModSmall(width + 1, height + 1, 0);
    assert BoardSize(width, height) - (width + 1) == (height + 1) * (width + 1);
  }

  lemma BorderIs(width: nat, height: nat, b: Board)
    requires |b| == BoardSize(width, height)
    requires var v := width + 1; var e := LeftEdge(v, |b|);
      forall k :: 0 <= k < |b| ==> b[k] == if e[k] || k < v || |b| - v <= k then EDGE else EMPTY
    ensures b == StartBoard(width, height)
  {
    assert |b| == (width + 1) * (height + 1) + (width + 1);
  }

  lemma ModSmall(v: nat, q: nat, r: nat)
    requires r < v
    ensures (q * v + r) % v == r
    decreases q
  {
    if q > 0 {
      ModSmall(v, q - 1, r);
      var x := (q - 1) * v + r;
      assert q * v + r == x + v;
      assert (x + v) % v == x % v by {
        ModAdd(x, v);
      }
    }
  }

  lemma ModAdd(x: nat, v: nat)
    requires 0 < v
    ensures (x + v) % v == x % v
  {
    assert x + v == v * (x / v + 1) + x % v;
    DivModUnique(x + v, v, x / v + 1, x % v);
  }

  lemma DivModUnique(x: nat, v: nat, q: nat, r: nat)
    requires 0 < v && x == v * q + r && r < v
    ensures x % v == r
  {
    var q', r' := x / v, x % v;
    assert x == v * q' + r';
    MulGap(v, q', q);
    MulGap(v, q, q');
  }

  lemma {:induction false} MulGap(v: nat, a: nat, b: nat)
    ensures a < b ==> v * a + v <= v * b
    decreases b
  {
    if a < b - 1 {
      MulGap(v, a, b - 1);
      assert v * b == v * (b - 1) + v;
    } else if a == b - 1 {
      assert v * b == v * a + v;
    }
  }

  lemma SamePoint(v: nat, x: nat, y: nat, x': nat, y': nat)
    requires x < v && x' < v && y * v + x == y' * v + x'
    ensures x == x' && y == y'
  {
    ModSmall(v, y, x);
    ModSmall(v, y', x');
    MulGap(v, y, y');
    MulGap(v, y', y);
  }

  lemma NextRow(v: nat, y: nat)
    ensures (y + 1) * v == y * v + v
  {
  }

  /** Adjacent points are those one step apart in one direction. */
  lemma AdjacentPoints(width: nat, x: nat, y: nat, x': nat, y': nat)
    requires 1 <= x <= width && 1 <= x' <= width && 1 <= y && 1 <= y'
    ensures Adj(width + 1, y * (width + 1) + x, y' * (width + 1) + x') <==>
      (x == x' && (y == y' + 1 || y' == y + 1)) || (y == y' && (x == x' + 1 || x' == x + 1))
  {
    var v := width + 1;
    NextRow(v, y);
    NextRow(v, y - 1);
    if Adj(v, y * v + x, y' * v + x') {
      StepAway(v, x, y, x', y');
    } else if y == y' + 1 || y' == y + 1 {
      NextRow(v, y');
    }
  }

  lemma StepAway(v: nat, x: nat, y: nat, x': nat, y': nat)
    requires 1 <= x < v && 1 <= x' < v && 1 <= y && 1 <= y' && Adj(v, y * v + x, y' * v + x')
    ensures (x == x' && (y == y' + 1 || y' == y + 1)) || (y == y' && (x == x' + 1 || x' == x + 1))
  {
    NextRow(v, y);
    NextRow(v, y - 1);
    var p, q := y * v + x, y' * v + x';
    if q == p + v {
      SamePoint(v, x, y + 1, x', y');
    } else if q == p - v {
      SamePoint(v, x, y - 1, x', y');
    } else if q == p + 1 {
      BesidePoint(v, x, y, x', y');
    } else {
      BesidePoint(v, x', y', x, y);
    }
  }

  lemma BesidePoint(v: nat, x: nat, y: nat, x': nat, y': nat)
    requires 1 <= x < v && 1 <= x' < v && y' * v + x' == y * v + x + 1
    ensures y == y' && x' == x + 1
  {
    SamePoint(v, x, y, x' - 1, y');
  }
}
