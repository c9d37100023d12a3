/** Where the handicap table fits: each star is a free point with a free
    neighbour exactly if the board has the rows that the stars lie in. */
module GoStars {
  import opened GoBoard
  import opened GoEngine
  import opened GoStart
  import opened GoHistory

  /** Column or row number of the letter at place k of the table entry. */
  function Line(width: nat, k: nat): int
    requires k < |Stars(width)|
  {
    Stars(width)[k] as int - 'a' as int + 1
  }

  /** Stars lie inside the board, clear of its last column, and no two of the
      lines they lie on are adjacent. */
  ghost predicate Spread(width: nat) {
    && |Stars(width)| % 2 == 0
    && (forall k :: 0 <= k < |Stars(width)| ==> 1 <= Line(width, k) < width)
    && (forall k, l :: 0 <= k < |Stars(width)| && 0 <= l < |Stars(width)| ==> Line(width, k) + 1 != Line(width, l))
  }

  /** Every letter of s is one of a, b and c, lines at least two apart and below width. */
  ghost predicate Spaced(s: string, width: nat, a: char, b: char, c: char) {
    && |s| % 2 == 0
    && 'a' <= a && (a == b || a as int + 1 < b as int)
    && (b == c || b as int + 1 < c as int) && c as int - 'a' as int + 1 < width
    && forall k :: 0 <= k < |s| ==> s[k] == a || s[k] == b || s[k] == c
  }

  lemma SmallTable(width: nat)
    requires 1 < width <= 12 && Stars(width) != []
    ensures exists a, b, c :: Spaced(Stars(width), width, a, b, c)
  {
    var s := Stars(width);
    match width
    case 5 => assert Spaced(s, width, 'c', 'c', 'c');
    case 7 => assert Spaced(s, width, 'b', 'd', 'f');
    case 8 => assert Spaced(s, width, 'a', 'c', 'f');
    case 9 => assert Spaced(s, width, 'c', 'e', 'g');
    case 10 => assert Spaced(s, width, 'a', 'c', 'h');
    case 11 => assert Spaced(s, width, 'c', 'f', 'i');
    case 12 => assert Spaced(s, width, 'a', 'd', 'i');
  }

  lemma LargeTable(width: nat)
    requires width > 12 && Stars(width) != []
    ensures exists a, b, c :: Spaced(Stars(width), width, a, b, c)
  {
    var s := Stars(width);
    match width
    case 13 => assert Spaced(s, width, 'd', 'g', 'j');
    case 14 => assert Spaced(s, width, 'a', 'd', 'k');
    case 15 => assert Spaced(s, width, 'd', 'h', 'l');
    case 16 => assert Spaced(s, width, 'a', 'd', 'm');
    case 17 => assert Spaced(s, width, 'd', 'i', 'n');
    case 18 => assert Spaced(s, width, 'a', 'd', 'o');
    case 19 => assert Spaced(s, width, 'd', 'j', 'p');
  }

  lemma TableSpreads(width: nat)
    requires width > 1
    ensures Spread(width)
  {
    if Stars(width) != [] {
      if width <= 12 {
        SmallTable(width);
      } else {
        LargeTable(width);
      }
      hide Stars;
      var a, b, c :| Spaced(Stars(width), width, a, b, c);
    }
  }

  /** A point given by column and row inside the board is free at the start. */
  lemma PointInside(width: nat, height: nat, x: nat, y: nat)
    requires 1 <= x <= width && 1 <= y <= height
    ensures var p := y * (width + 1) + x;
            0 <= p < BoardSize(width, height) && StartBoard(width, height)[p] == EMPTY
  {
    var v := width + 1;
    var p := y * v + x;
    ModSmall(v, y, x);
    MulGap(v, 0, y);
    MulGap(v, y, height + 1);
    assert v * y == y * v && v * (height + 1) == (height + 1) * v;
    assert BoardSize(width, height) == v * (height + 1) + v;
  }

  /** The board has the rows of the stars that are used. */
  predicate RowsFit(width: nat, height: nat, n: nat)
    requires n <= StarCount(width)
  {
    forall i :: 0 <= i < n ==> Line(width, 2 * StarIndex(width, n, i) + 1) <= height
  }

  lemma PointBelow(width: nat, height: nat, x: int, y: int)
    requires x >= 0 && y > height
    ensures var p := y * (width + 1) + x; var b := StartBoard(width, height); !(0 <= p < |b| && b[p] == EMPTY)
  {
    var v := width + 1;
    MulGap(v, height, y);
    assert v * height + v == v * (height + 1) && v * y == y * v;
  }

  /** A star below the last row is not free. */
  lemma StarBelow(width: nat, height: nat, n: nat, i: nat)
    requires i < n <= StarCount(width) && Line(width, 2 * StarIndex(width, n, i) + 1) > height
    requires Line(width, 2 * StarIndex(width, n, i)) >= 0
    ensures var p := HandicapPoints(width, n)[i]; var b := StartBoard(width, height); !(0 <= p < |b| && b[p] == EMPTY)
  {
    hide Stars, IsBorder, BoardSize;
    var k := StarIndex(width, n, i);
    PointBelow(width, height, Line(width, 2 * k), Line(width, 2 * k + 1));
  }

  /** The handicap points fit exactly if their rows do. */
  lemma HandicapFits(width: nat, height: nat, n: nat)
    requires 1 < width && 0 < n <= StarCount(width)
    ensures StarsFit(StartBoard(width, height), width + 1, HandicapPoints(width, n)) <==> RowsFit(width, height, n)
  {
    TableSpreads(width);
    var stars, b, v := HandicapPoints(width, n), StartBoard(width, height), width + 1;
    assert |stars| == n;
    hide Stars, HandicapPoints;
    if RowsFit(width, height, n) {
      forall i | 0 <= i < |stars|
        ensures 0 <= stars[i] < |b| && b[stars[i]] == EMPTY
        ensures exists z :: Adj(v, stars[i], z) && 0 <= z < |b| && b[z] == EMPTY && z !in stars
      {
        StarIsFree(width, height, n, i);
        assert Adj(v, stars[i], stars[i] + 1);
      }
    } else {
      var i :| 0 <= i < n && Line(width, 2 * StarIndex(width, n, i) + 1) > height;
      StarBelow(width, height, n, i);
    }
  }

  /** A board at least as high as it is wide has the rows. */
  lemma SquareFits(width: nat, height: nat, n: nat)
    requires 1 < width <= height && n <= StarCount(width)
    ensures RowsFit(width, height, n)
  {
    TableSpreads(width);
    hide Stars;
  }

  /** A wide board without the rows: the first star of width 19 lies in row 16. */
  lemma LowBoard()
    ensures StarCount(19) >= 1 && !RowsFit(19, 4, 1)
    ensures !StarsFit(StartBoard(19, 4), 20, HandicapPoints(19, 1))
  {
    assert Line(19, 2 * StarIndex(19, 1, 0) + 1) == 16;
    HandicapFits(19, 4, 1);
  }

  /** On a board of one column the star at its top needs a free point below it. */
  lemma NarrowFits(height: nat)
    ensures StarCount(1) == 1
    ensures StarsFit(StartBoard(1, height), 2, HandicapPoints(1, 1)) <==> height >= 2
  {
    var b := StartBoard(1, height);
    assert HandicapPoints(1, 1) == [3] && |b| == 2 * height + 4;
    if height >= 2 {
      assert Adj(2, 3, 5) && b[5] == EMPTY && 5 !in [3];
    } else {
      assert [3][0] == 3 && forall x :: 0 <= x < |b| && x != 3 ==> b[x] == EDGE;
    }
  }

  ghost predicate StarFree(b: Board, v: nat, stars: seq<int>, i: nat) {
    && i < |stars| && 0 <= stars[i] < |b| - 1 && b[stars[i]] == EMPTY
    && Adj(v, stars[i], stars[i] + 1) && b[stars[i] + 1] == EMPTY && stars[i] + 1 !in stars
  }

  lemma StarIsFree(width: nat, height: nat, n: nat, i: nat)
    requires 1 < width && Spread(width) && i < n <= StarCount(width) && RowsFit(width, height, n)
    ensures StarFree(StartBoard(width, height), width + 1, HandicapPoints(width, n), i)
  {
    hide Stars;
    var stars, v := HandicapPoints(width, n), width + 1;
    var k := StarIndex(width, n, i);
    var x, y := Line(width, 2 * k), Line(width, 2 * k + 1);
    assert stars[i] == y * v + x;
    PointInside(width, height, x, y);
    PointInside(width, height, x + 1, y);
    forall j | 0 <= j < |stars|
      ensures stars[j] != stars[i] + 1
    {
      var l := StarIndex(width, n, j);
      var x', y' := Line(width, 2 * l), Line(width, 2 * l + 1);
      assert stars[j] == y' * v + x';
      if stars[j] == stars[i] + 1 {
        SamePoint(v, x + 1, y, x', y');
      }
    }
  }

  // Where the stars lie -------------------------------------------------------------------

  /** Column and row of star k: small boards have their centre. Large ones have the
      crossings of the third or fourth lines and, for odd widths, of the middle ones. */
  function StarAt(width: nat, k: nat): (int, int)
    requires k < 9
  {
    var l := if width < 12 then 3 else 4;
    var h, m := width + 1 - l, (width + 1) / 2;
    if width < 8 then (m, m)
    else if width == 8 && 0 < k < 3 then if k == 1 then (l, h) else (h, l)
    else if k == 0 then if width == 8 then (l, l) else (h, h)
    else if k == 1 then (l, l)
    else if k == 2 then (l, h)
    else if k == 3 then if width == 8 then (h, h) else (h, l)
    else if k == 4 then (l, m)
    else if k == 5 then (h, m)
    else if k == 6 then (m, l)
    else if k == 7 then (m, h)
    else (m, m)
  }

  /** The letters of four stars, and of five more. */
  function Corners(l: char, h: char): string {
    [h, h, l, l, l, h, h, l]
  }

  function Middles(l: char, m: char, h: char): string {
    [l, m, h, m, m, l, m, h, m, m]
  }

  function Letter(x: nat): char
    requires 0 < x < 27
  {
    (x - 1 + 'a' as int) as char
  }

  /** The table, made of the lines of each width. */
  function Entry(width: nat): string {
    if width == 1 || width == 5 || width == 7 then [Letter((width + 1) / 2), Letter((width + 1) / 2)]
    else if 8 <= width < 20 then
      var l := if width < 12 then 3 else 4;
      var a, b := Letter(l), Letter(width + 1 - l);
      if width == 8 then [a, a, a, b, b, a, b, b]
      else if width % 2 == 0 then Corners(a, b)
      else Corners(a, b) + Middles(a, Letter((width + 1) / 2), b)
    else ""
  }

  lemma TableIs(width: nat)
    ensures Stars(width) == Entry(width)
  {
    if 8 <= width < 20 && width % 2 == 1 {
      OddTableIs(width);
    } else if 8 <= width < 20 {
      EvenTableIs(width);
    }
  }

  lemma OddTableIs(width: nat)
    requires 8 <= width < 20 && width % 2 == 1
    ensures Stars(width) == Entry(width)
  {
    hide Stars, Entry;
    if width < 12 {
      SmallOddTable(width);
    } else if width < 16 {
      OddTable(width);
    } else {
      LargeOddTable(width);
    }
  }

  lemma SmallOddTable(width: nat)
    requires width == 9 || width == 11
    ensures Stars(width) == Entry(width)
  {
    match width
    case 9 => assert Letter(3) == 'c' && Letter(5) == 'e' && Letter(7) == 'g';
    case 11 => assert Letter(3) == 'c' && Letter(6) == 'f' && Letter(9) == 'i';
  }

  lemma OddTable(width: nat)
    requires width == 13 || width == 15
    ensures Stars(width) == Entry(width)
  {
    match width
    case 13 => assert Letter(4) == 'd' && Letter(7) == 'g' && Letter(10) == 'j';
    case 15 => assert Letter(4) == 'd' && Letter(8) == 'h' && Letter(12) == 'l';
  }

  lemma LargeOddTable(width: nat)
    requires width == 17 || width == 19
    ensures Stars(width) == Entry(width)
  {
    match width
    case 17 => assert Letter(4) == 'd' && Letter(9) == 'i' && Letter(14) == 'n';
    case 19 => assert Letter(4) == 'd' && Letter(10) == 'j' && Letter(16) == 'p';
  }

  lemma EvenTableIs(width: nat)
    requires 8 <= width < 20 && width % 2 == 0
    ensures Stars(width) == Entry(width)
  {
    match width
    case 8 => assert Letter(3) == 'c' && Letter(6) == 'f';
    case 10 => assert Letter(3) == 'c' && Letter(8) == 'h';
    case 12 => assert Letter(4) == 'd' && Letter(9) == 'i';
    case 14 => assert Letter(4) == 'd' && Letter(11) == 'k';
    case 16 => assert Letter(4) == 'd' && Letter(13) == 'm';
    case 18 => assert Letter(4) == 'd' && Letter(15) == 'o';
  }

  /** The table has these stars and no others. */
  lemma StarsLie(width: nat, k: nat)
    ensures StarCount(width) ==
      if width == 1 || width == 5 || width == 7 then 1
      else if 8 <= width < 20 then (if width % 2 == 1 then 9 else 4) else 0
    ensures k < StarCount(width) ==> (Line(width, 2 * k), Line(width, 2 * k + 1)) == StarAt(width, k)
  {
    hide Stars;
    TableIs(width);
  }

  /** Handicap point i, by its star. */
  lemma PointIs(width: nat, n: nat, i: nat)
    requires i < n <= StarCount(width)
    ensures StarCount(width) <= 9
    ensures var s := StarAt(width, StarIndex(width, n, i));
            && 0 < s.0 <= width && 0 < s.1 <= width
            && HandicapPoints(width, n)[i] == s.1 * (width + 1) + s.0
  {
    StarsLie(width, StarIndex(width, n, i));
    hide Stars;
  }

  lemma StarsDiffer(width: nat, k: nat, l: nat)
    requires k < l < StarCount(width) <= 9
    ensures StarAt(width, k) != StarAt(width, l)
  {
    StarsLie(width, k);
    hide Stars;
  }

  /** No two points of a handicap are the same. */
  lemma PointsDiffer(width: nat, n: nat, i: nat, j: nat)
    requires i < j < n <= StarCount(width)
    ensures HandicapPoints(width, n)[i] != HandicapPoints(width, n)[j]
  {
    PointIs(width, n, i);
    PointIs(width, n, j);
    var k, l := StarIndex(width, n, i), StarIndex(width, n, j);
    hide Stars, StarAt, HandicapPoints, StarPoint;
    assert k < l;
    StarsDiffer(width, k, l);
    var a, b := StarAt(width, k), StarAt(width, l);
    if a.1 * (width + 1) + a.0 == b.1 * (width + 1) + b.0 {
      SamePoint(width + 1, a.0, a.1, b.0, b.1);
    }
  }

  lemma TurnedPoint(v: nat, x: int, y: int, x': int, y': int)
    requires x + x' == v && y + y' == v
    ensures y' * v + x' == v * (v + 1) - (y * v + x)
  {
    assert y * v + y' * v == (y + y') * v;
    assert v * (v + 1) == v * v + v;
  }

  /** Stars come in pairs that lie opposite each other, and the centre. */
  lemma StarsOpposite(width: nat, k: nat)
    requires 9 <= width < 20 && width % 2 == 1 && k < 9
    ensures var a, b := StarAt(width, k), StarAt(width, if k == 8 then k else if k % 2 == 0 then k + 1 else k - 1);
            a.0 + b.0 == width + 1 && a.1 + b.1 == width + 1
  {
  }

  /** With nine stars the points of two stones or more, three excepted, are the same
      after half a turn of the board. */
  lemma HalfTurn(width: nat, n: nat, i: nat) returns (j: nat)
    requires StarCount(width) == 9 && (n == 2 || 4 <= n <= 9) && i < n
    ensures j < n && HandicapPoints(width, n)[j] == (width + 1) * (width + 2) - HandicapPoints(width, n)[i]
  {
    hide Stars, StarAt, HandicapPoints, StarPoint;
    var k := StarIndex(width, n, i);
    j := if k == 8 then i else if i % 2 == 0 then i + 1 else i - 1;
    PointIs(width, n, i);
    PointIs(width, n, j);
    StarsLie(width, k);
    StarsOpposite(width, k);
    var a, b := StarAt(width, k), StarAt(width, StarIndex(width, n, j));
    TurnedPoint(width + 1, a.0, a.1, b.0, b.1);
  }

  /** And the last of five, seven or nine stands in the centre. */
  lemma LastInCentre(width: nat, n: nat)
    requires StarCount(width) == 9 && (n == 5 || n == 7 || n == 9)
    ensures var m := (width + 1) / 2; HandicapPoints(width, n)[n - 1] == m * (width + 1) + m
  {
    PointIs(width, n, n - 1);
    StarsLie(width, 8);
    hide Stars, HandicapPoints, StarPoint;
  }

  /** On the full board the first four are the points four lines from two edges. */
  lemma FourStones()
    ensures StarCount(19) == 9
    ensures HandicapPoints(19, 4) == [16 * 20 + 16, 4 * 20 + 4, 16 * 20 + 4, 4 * 20 + 16]
  {
    StarsLie(19, 0);
    PointIs(19, 4, 0);
    PointIs(19, 4, 1);
    PointIs(19, 4, 2);
    PointIs(19, 4, 3);
    hide Stars, StarPoint;
  }

  // How many stones there are ---------------------------------------------------------------

  lemma {:induction false} DistinctCount(s: seq<int>)
    requires forall i, j :: 0 <= i < j < |s| ==> s[i] != s[j]
    ensures |set x | x in s| == |s|
    decreases |s|
  {
    if s != [] {
      var n := |s| - 1;
      DistinctCount(s[..n]);
      assert s == s[..n] + [s[n]];
      assert (set x | x in s) == (set x | x in s[..n]) + {s[n]};
    }
  }

  /** A handicap of n puts n black stones on the board and no white one. */
  lemma StonesCounted(t: Terms, b: Board, width: nat, n: nat)
    requires StarsFit(t.start, t.e.v, t.stars) && t.stars == HandicapPoints(width, n) && 0 < n <= StarCount(width)
    requires Starred(t, b, n)
    ensures Count(b, BLACK) == n && Count(b, WHITE) == 0
  {
    hide Stars, StarPoint;
    assert |t.stars| == n && t.stars[..n] == t.stars;
    forall i | 0 <= i < n
      ensures 0 <= t.stars[i] < |b|
    {
      StarIn(t, i);
    }
    assert Points(b, BLACK) == set x | x in t.stars;
    forall i, j | 0 <= i < j < n
      ensures t.stars[i] != t.stars[j]
    {
      PointsDiffer(width, n, i, j);
    }
    DistinctCount(t.stars);
    assert Points(b, WHITE) == {};
  }
}
