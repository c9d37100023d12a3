/** The move history: what the recorded moves say about the positions of the
    game, and that playing them again from an equal board gives equal results. */
module GoHistory {
  import opened GoBoard
  import opened GoRules
  import opened GoEngine
  import opened GoTally
  import opened GoPlay

  const RULES_NET := 1
  const RULES_ING := 2
  const PASS := -1

  /** An entry of the move history; a point below PASS stands for a handicap. */
  datatype MoveRec = MoveRec(point: int, ko: int, taken: seq<bool>, self: bool, hash: Hash)

  const FIRST := MoveRec(0, 0, [false, false, false, false], false, {})

  /** What does not change during a game, and the handicap. */
  datatype Terms = Terms(e: Env, rules: int, start: Board, handicap: int, stars: seq<int>)

  function ColourOf(nr: int): int {
    if nr % 2 == 1 then BLACK else WHITE
  }

  /** White has to pass while Black places Ing handicap stones. */
  predicate IngWait(t: Terms, nr: int) {
    t.rules == RULES_ING && nr % 2 == 1 && nr < 2 * t.handicap
  }

  /** The checks made before anything is changed; nr moves were made so far. */
  predicate Open(t: Terms, b: Board, ko: int, p: int, nr: int)
    requires 0 <= p < |b|
  {
    b[p] == EMPTY && p != ko && !IngWait(t, nr)
  }

  predicate SuicideBarred(t: Terms, self: bool) {
    t.rules == RULES_NET && self
  }

  /** The history entry of a move that was carried out. */
  function Entered(p: int, o: Outcome): MoveRec {
    MoveRec(p, o.look.kostat, o.taken, o.self, o.look.pos.hash)
  }

  ghost predicate Played(t: Terms, s: Pos, u: Pos, prev: MoveRec, m: MoveRec, nr: nat) {
    && CanMove(t.e, s, m.point, ColourOf(nr + 1))
    && Open(t, s.board, prev.ko, m.point, nr)
    && var o := Move(t.e, s, m.point, ColourOf(nr + 1));
      && !SuicideBarred(t, o.self)
      && u == o.look.pos
      && m == Entered(m.point, o)
  }

  ghost predicate Passed(s: Pos, u: Pos, prev: MoveRec, m: MoveRec) {
    m.point == PASS && u == s && m.ko == 0 && m.hash == prev.hash
  }

  /** A position as at the start of a game; the union-find array may hold
      anything, no stone refers to it yet. */
  ghost predicate Starting(t: Terms, s: Pos) {
    Sound(t.e, s) && s.board == t.start && s.log == [] && s.hash == {} && s.caps == [0, 0, 0, 0]
  }

  /** The board is empty, and each handicap point is free and has a free
      neighbour that is no handicap point. */
  ghost predicate StarsFit(b: Board, v: nat, stars: seq<int>) {
    && stars != []
    && (forall x :: 0 <= x < |b| ==> !IsStone(b[x]))
    && forall i :: 0 <= i < |stars| ==>
      && 0 <= stars[i] < |b| && b[stars[i]] == EMPTY
      && exists z :: Adj(v, stars[i], z) && 0 <= z < |b| && b[z] == EMPTY && z !in stars
  }

  /** While the handicap is set up, black stones on handicap points are all there is. */
  ghost predicate SettingUp(t: Terms, s: Pos) {
    && Sound(t.e, s) && |s.board| == |t.start|
    && forall x {:trigger s.board[x]} :: 0 <= x < |s.board| ==>
      s.board[x] == t.start[x] || (s.board[x] == BLACK && x in t.stars && t.start[x] == EMPTY)
  }

  /** Nothing is captured when stones are set on handicap points. */
  lemma StarPlayable(t: Terms, s: Pos, p: int)
    requires StarsFit(t.start, t.e.v, t.stars) && SettingUp(t, s) && p in t.stars && s.board[p] == EMPTY
    ensures var o := Move(t.e, s, p, BLACK);
            !o.self && o.look.pos.board == s.board[p := BLACK] && SettingUp(t, o.look.pos)
  {
    hide Move, Tallied, Standing, Conn;
    var i :| 0 <= i < |t.stars| && t.stars[i] == p;
    MoveFollowsRules(t.e, s, p, BLACK);
    var b0 := s.board[p := BLACK];
    assert RemoveDead(b0, t.e.v, WHITE) == b0;
    forall x | 0 <= x < |b0| && b0[x] == BLACK
      ensures HasLiberty(b0, t.e.v, x)
    {
      StarHasLiberty(t, b0, x);
    }
    assert RemoveDead(b0, t.e.v, BLACK) == b0;
  }

  lemma StarHasLiberty(t: Terms, b: Board, x: int)
    requires StarsFit(t.start, t.e.v, t.stars) && x in t.stars && |b| == |t.start|
    requires forall y {:trigger b[y]} :: 0 <= y < |b| && y !in t.stars ==> b[y] == t.start[y]
    ensures HasLiberty(b, t.e.v, x)
  {
    var i :| 0 <= i < |t.stars| && t.stars[i] == x;
    var z :| Adj(t.e.v, t.stars[i], z) && 0 <= z < |t.start| && t.start[z] == EMPTY && z !in t.stars;
    ConnSelf(b, t.e.v, x);
    assert b[z] == EMPTY;
  }

  /** One handicap stone, played as if it were the first move; a taken point is
      left alone. The second part is what the first history entry then holds. */
  ghost function PlaceStar(t: Terms, s: Pos, m: MoveRec, p: int): (r: (Pos, MoveRec))
    requires StarsFit(t.start, t.e.v, t.stars) && SettingUp(t, s) && p in t.stars
    ensures SettingUp(t, r.0)
  {
    if s.board[p] == EMPTY then
      StarPlayable(t, s, p);
      var o := Move(t.e, s, p, BLACK);
      (o.look.pos, Entered(p, o))
    else (s, m)
  }

  ghost function PlaceStars(t: Terms, s: Pos, m: MoveRec, n: nat): (r: (Pos, MoveRec))
    requires StarsFit(t.start, t.e.v, t.stars) && SettingUp(t, s) && n <= |t.stars|
    ensures SettingUp(t, r.0)
  {
    if n == 0 then (s, m)
    else
      var r := PlaceStars(t, s, m, n - 1);
      PlaceStar(t, r.0, r.1, t.stars[n - 1])
  }

  /** b is the start board with black stones on the first n handicap points. */
  ghost predicate Starred(t: Terms, b: Board, n: nat)
    requires n <= |t.stars|
  {
    && |b| == |t.start|
    && forall x {:trigger b[x]} :: 0 <= x < |b| ==> b[x] == if x in t.stars[..n] then BLACK else t.start[x]
  }

  lemma StarredNext(t: Terms, b: Board, n: nat)
    requires n < |t.stars| && Starred(t, b, n) && 0 <= t.stars[n] < |b| && t.start[t.stars[n]] == EMPTY
    ensures Starred(t, if b[t.stars[n]] == EMPTY then b[t.stars[n] := BLACK] else b, n + 1)
  {
    assert t.stars[..n + 1] == t.stars[..n] + [t.stars[n]];
  }

  lemma PlaceStarBoard(t: Terms, s: Pos, m: MoveRec, p: int)
    requires StarsFit(t.start, t.e.v, t.stars) && SettingUp(t, s) && p in t.stars
    ensures PlaceStar(t, s, m, p).0.board == if s.board[p] == EMPTY then s.board[p := BLACK] else s.board
  {
    if s.board[p] == EMPTY {
      StarPlayable(t, s, p);
    }
  }

  /** A handicap stone is accepted as the first move exactly if its point is free. */
  lemma StarAccepted(t: Terms, s: Pos, m: MoveRec, p: int)
    requires StarsFit(t.start, t.e.v, t.stars) && SettingUp(t, s) && p in t.stars && t.rules == RULES_NET
    ensures 0 <= p < |s.board| && (Open(t, s.board, 0, p, 0) <==> s.board[p] == EMPTY)
    ensures s.board[p] == EMPTY ==> CanMove(t.e, s, p, BLACK)
    ensures s.board[p] == EMPTY ==>
      var o := Move(t.e, s, p, BLACK); !o.self && PlaceStar(t, s, m, p) == (o.look.pos, Entered(p, o))
    ensures s.board[p] != EMPTY ==> PlaceStar(t, s, m, p) == (s, m)
  {
    hide Move, Tallied, Standing;
    if s.board[p] == EMPTY {
      StarPlayable(t, s, p);
    }
  }

  /** A handicap puts a black stone on each handicap point and changes nothing else. */
  lemma {:induction false} StarsPlaced(t: Terms, s: Pos, m: MoveRec, n: nat)
    requires StarsFit(t.start, t.e.v, t.stars) && SettingUp(t, s) && n <= |t.stars| && s.board == t.start
    ensures Starred(t, PlaceStars(t, s, m, n).0.board, n)
    decreases n
  {
    hide Move, PlaceStar, StarsFit, Standing, Tallied, Framed, Coloured;
    if n > 0 {
      var r := PlaceStars(t, s, m, n - 1);
      StarsPlaced(t, s, m, n - 1);
      StarIn(t, n - 1);
      StarredNext(t, r.0.board, n - 1);
      PlaceStarBoard(t, r.0, r.1, t.stars[n - 1]);
    }
  }

  ghost predicate Handicapped(t: Terms, s: Pos, u: Pos, m: MoveRec, nr: nat) {
    && nr == 0 && t.rules == RULES_NET && t.handicap > 0
    && StarsFit(t.start, t.e.v, t.stars)
    && Starting(t, s)
    && SettingUp(t, s)
    && var r := PlaceStars(t, s, FIRST, |t.stars|);
      u == r.0 && m == r.1.(point := -1 - t.handicap)
  }

  /** m is the entry of move nr + 1, which led from s to u. */
  ghost predicate Step(t: Terms, s: Pos, u: Pos, prev: MoveRec, m: MoveRec, nr: nat) {
    if m.point >= 0 then Played(t, s, u, prev, m, nr)
    else if m.point == PASS then Passed(s, u, prev, m)
    else Handicapped(t, s, u, m, nr)
  }

  /** The first n entries of the history tell how each position of the trail
      came from the one before. */
  ghost predicate History(t: Terms, trail: seq<Pos>, moves: seq<MoveRec>, n: nat) {
    && |trail| == n + 1 && |moves| > n
    && Starting(t, trail[0])
    && moves[0].point == 0 && moves[0].ko == 0 && moves[0].hash == {}
    && (forall i {:trigger trail[i]} :: 0 <= i <= n ==> Sound(t.e, trail[i]) && moves[i].hash == trail[i].hash)
    && (forall i {:trigger Step(t, trail[i], trail[i + 1], moves[i], moves[i + 1], i)} :: 0 <= i < n ==>
      Step(t, trail[i], trail[i + 1], moves[i], moves[i + 1], i))
  }

  lemma HistoryGrows(t: Terms, trail: seq<Pos>, moves: seq<MoveRec>, n: nat, u: Pos, moves': seq<MoveRec>)
    requires History(t, trail, moves, n) && Sound(t.e, u)
    requires |moves'| > n + 1 && moves'[..n + 1] == moves[..n + 1]
    requires Step(t, trail[n], u, moves[n], moves'[n + 1], n) && moves'[n + 1].hash == u.hash
    ensures History(t, trail + [u], moves', n + 1)
  {
    hide Step, Sound;
    var trail' := trail + [u];
    forall i | 0 <= i <= n
      ensures moves'[i] == moves[i]
    {
      assert moves'[i] == moves'[..n + 1][i];
    }
    forall i | 0 <= i < n + 1
      ensures Step(t, trail'[i], trail'[i + 1], moves'[i], moves'[i + 1], i)
    {
      if i < n {
        assert Step(t, trail[i], trail[i + 1], moves[i], moves[i + 1], i);
      }
    }
  }

  lemma HistoryShrinks(t: Terms, trail: seq<Pos>, moves: seq<MoveRec>, n: nat, moves': seq<MoveRec>)
    requires n > 0 && History(t, trail, moves, n) && |moves'| >= n && moves'[..n] == moves[..n]
    ensures History(t, trail[..n], moves', n - 1)
  {
    forall i | 0 <= i < n
      ensures moves'[i] == moves[i]
    {
      assert moves'[i] == moves'[..n][i];
    }
    forall i | 0 <= i < n - 1
      ensures Step(t, trail[..n][i], trail[..n][i + 1], moves'[i], moves'[i + 1], i)
    {
      assert Step(t, trail[i], trail[i + 1], moves[i], moves[i + 1], i);
    }
  }

  lemma PlayExtends(t: Terms, trail: seq<Pos>, moves: seq<MoveRec>, n: nat, p: int, ko: bool)
    requires History(t, trail, moves, n) && 0 <= p < |trail[n].board|
    requires Accepts(t, trail, trail[n], moves[n].ko, p, n, ko)
    ensures var o := Move(t.e, trail[n], p, ColourOf(n + 1));
            History(t, trail + [o.look.pos], Put(moves, n + 1, Entered(p, o)), n + 1)
  {
    hide Move, Tallied, Standing;
    var o := Move(t.e, trail[n], p, ColourOf(n + 1));
    MoveFollowsRules(t.e, trail[n], p, ColourOf(n + 1));
    HistoryGrows(t, trail, moves, n, o.look.pos, Put(moves, n + 1, Entered(p, o)));
  }

  lemma HistoryLength(t: Terms, trail: seq<Pos>, moves: seq<MoveRec>, n: nat)
    requires History(t, trail, moves, n)
    ensures |trail| == n + 1 && |moves| > n && moves[n].hash == trail[n].hash
  {
  }

  lemma PassExtends(t: Terms, trail: seq<Pos>, moves: seq<MoveRec>, n: nat, m: MoveRec)
    requires History(t, trail, moves, n) && m.point == PASS && m.ko == 0 && m.hash == moves[n].hash
    ensures History(t, trail + [trail[n]], Put(moves, n + 1, m), n + 1)
  {
    HistoryGrows(t, trail, moves, n, trail[n], Put(moves, n + 1, m));
  }

  // Playing again --------------------------------------------------------------------

  /** Two positions that differ at most in the union-find array and its log. */
  ghost predicate SameView(s: Pos, u: Pos) {
    s.board == u.board && s.hash == u.hash && s.caps == u.caps
  }

  /** The outcome of a move is a matter of the board: replayed on an equal
      board it captures, counts and records the same. */
  lemma MoveDetermined(e: Env, s: Pos, u: Pos, p: int, c: int)
    requires CanMove(e, s, p, c) && CanMove(e, u, p, c) && SameView(s, u)
    ensures var m, m' := Move(e, s, p, c), Move(e, u, p, c);
            && SameView(m.look.pos, m'.look.pos)
            && Entered(p, m) == Entered(p, m')
  {
    var m, m' := Move(e, s, p, c), Move(e, u, p, c);
    MoveFollowsRules(e, s, p, c);
    MoveFollowsRules(e, u, p, c);
    MoveRecords(e, s, p, c);
    MoveRecords(e, u, p, c);
    SameBoardSameHash(e, m.look.pos, m'.look.pos);
    assert m.taken == m'.taken by {
      forall k | 0 <= k < 4
        ensures m.taken[k] == m'.taken[k]
      {
        assert m.taken[k] <==> Takes(s.board[p := c], e.v, p, c, k);
      }
    }
    SameCaps(Place(e, s, p, c), m.look.pos, Place(e, u, p, c), m'.look.pos);
  }

  lemma SameCaps(s: Pos, t: Pos, s': Pos, t': Pos)
    requires Balanced(s, t) && Balanced(s', t') && s.caps == s'.caps && s.board == s'.board && t.board == t'.board
    ensures t.caps == t'.caps
  {
  }

  lemma StarDetermined(t: Terms, s: Pos, u: Pos, m: MoveRec, m': MoveRec, p: int)
    requires StarsFit(t.start, t.e.v, t.stars) && SettingUp(t, s) && SettingUp(t, u) && SameView(s, u) && p in t.stars
    requires s.board[p] == EMPTY || (m == m' && m.hash == s.hash)
    ensures var r, r' := PlaceStar(t, s, m, p), PlaceStar(t, u, m', p);
            SameView(r.0, r'.0) && r.1 == r'.1 && r.1.hash == r.0.hash
  {
    if s.board[p] == EMPTY {
      StarPlayable(t, s, p);
      StarPlayable(t, u, p);
      MoveDetermined(t.e, s, u, p, BLACK);
    }
  }

  /** Setting up the handicap again gives an equal board, and an equal entry
      whatever the entry held before. */
  lemma {:induction false} StarsDetermined(t: Terms, s: Pos, u: Pos, m: MoveRec, m': MoveRec, n: nat)
    requires StarsFit(t.start, t.e.v, t.stars) && SettingUp(t, s) && SettingUp(t, u) && SameView(s, u)
    requires s.board == t.start && 0 < n <= |t.stars|
    ensures var r, r' := PlaceStars(t, s, m, n), PlaceStars(t, u, m', n);
            SameView(r.0, r'.0) && r.1 == r'.1 && r.1.hash == r.0.hash
    decreases n
  {
    var p := t.stars[n - 1];
    if n == 1 {
      assert PlaceStars(t, s, m, 0) == (s, m) && PlaceStars(t, u, m', 0) == (u, m');
      StarDetermined(t, s, u, m, m', p);
    } else {
      StarsDetermined(t, s, u, m, m', n - 1);
      var r, r' := PlaceStars(t, s, m, n - 1), PlaceStars(t, u, m', n - 1);
      StarDetermined(t, r.0, r'.0, r.1, r'.1, p);
    }
  }

  /** What the first history entry held before does not matter for a handicap. */
  lemma {:induction false} StarsEntry(t: Terms, s: Pos, m: MoveRec, m': MoveRec, n: nat)
    requires StarsFit(t.start, t.e.v, t.stars) && SettingUp(t, s) && s.board == t.start && n <= |t.stars|
    ensures var r, r' := PlaceStars(t, s, m, n), PlaceStars(t, s, m', n); r.0 == r'.0 && (n > 0 ==> r.1 == r'.1)
    decreases n
  {
    hide Move, Sound;
    if n > 0 {
      StarsEntry(t, s, m, m', n - 1);
    }
  }

  lemma StarsNext(t: Terms, s: Pos, m: MoveRec, k: nat)
    requires StarsFit(t.start, t.e.v, t.stars) && SettingUp(t, s) && k < |t.stars|
    ensures PlaceStars(t, s, m, 0) == (s, m)
    ensures var r := PlaceStars(t, s, m, k); PlaceStars(t, s, m, k + 1) == PlaceStar(t, r.0, r.1, t.stars[k])
    ensures var r := PlaceStars(t, s, m, k); var q := PlaceStar(t, r.0, r.1, t.stars[k]);
            0 <= t.stars[k] < |r.0.board| && (r.0.board[t.stars[k]] != EMPTY ==> q == r)
  {
    hide Move;
  }

  lemma StarIn(t: Terms, k: nat)
    requires StarsFit(t.start, t.e.v, t.stars) && k < |t.stars|
    ensures t.stars[k] in t.stars && 0 <= t.stars[k] < |t.start| && t.start[t.stars[k]] == EMPTY
  {
  }

  /** Setting up a handicap is the first step of a history. */
  lemma HandicapExtends(t: Terms, trail: seq<Pos>, moves: seq<MoveRec>, m: MoveRec)
    requires History(t, trail, moves, 0) && t.rules == RULES_NET && t.handicap > 0 && StarsFit(t.start, t.e.v, t.stars)
    requires t.handicap == |t.stars| && SettingUp(t, trail[0])
    ensures var r := PlaceStars(t, trail[0], m, t.handicap);
            History(t, trail + [r.0], Put(moves, 1, r.1.(point := -1 - t.handicap)), 1)
  {
    hide Move, PlaceStar, StarsFit, Standing, Tallied;
    var s := trail[0];
    var r := PlaceStars(t, s, m, t.handicap);
    StarsEntry(t, s, m, FIRST, t.handicap);
    StarsDetermined(t, s, s, m, m, t.handicap);
    HistoryGrows(t, trail, moves, 0, r.0, Put(moves, 1, r.1.(point := -1 - t.handicap)));
  }

  /** A recorded step can be taken again from any position that looks alike,
      is accepted again, and records the same entry. */
  lemma StepAgain(t: Terms, s: Pos, u: Pos, prev: MoveRec, m: MoveRec, nr: nat, s': Pos)
    requires Step(t, s, u, prev, m, nr) && m.point >= 0 && Sound(t.e, s') && SameView(s, s')
    ensures CanMove(t.e, s', m.point, ColourOf(nr + 1))
    ensures var o := Move(t.e, s', m.point, ColourOf(nr + 1));
            SameView(u, o.look.pos) && Step(t, s', o.look.pos, prev, m, nr)
  {
    MoveDetermined(t.e, s, s', m.point, ColourOf(nr + 1));
  }

  /** The first k entries have been played again, from a position that looks
      like the start, and look alike again. */
  ghost predicate Retraced(t: Terms, trail: seq<Pos>, now: seq<Pos>, moves: seq<MoveRec>, k: nat)
  {
    k < |trail| && History(t, now, moves, k) && SameView(now[k], trail[k])
  }

  lemma RetraceStart(t: Terms, trail: seq<Pos>, moves: seq<MoveRec>, n: nat, s: Pos)
    requires History(t, trail, moves, n) && Starting(t, s)
    ensures Retraced(t, trail, [s], moves, 0)
  {
  }

  lemma HandicapKnown(t: Terms, trail: seq<Pos>, moves: seq<MoveRec>, n: nat)
    requires History(t, trail, moves, n) && n > 0 && moves[1].point < PASS
    ensures t.rules == RULES_NET && t.handicap > 0 && moves[1].point == -1 - t.handicap
    ensures t.stars != [] && StarsFit(t.start, t.e.v, t.stars)
  {
    StepUndoes(t, trail, moves, n, 1);
  }

  lemma RetraceHandicap(t: Terms, trail: seq<Pos>, moves: seq<MoveRec>, n: nat, s: Pos, u: Pos, moves': seq<MoveRec>)
    requires History(t, trail, moves, n) && n > 0 && moves[1].point < PASS
    requires Starting(t, s) && History(t, [s, u], moves', 1)
    requires moves' == Put(moves, 1, moves'[1]) && moves'[1].point == moves[1].point
    ensures moves' == moves && Retraced(t, trail, [s, u], moves, 1)
  {
    StepUndoes(t, trail, moves, n, 1);
    StepUndoes(t, [s, u], moves', 1, 1);
    assert t.stars != [];
    hide Move, PlaceStar, StarsFit, Standing, Tallied;
    StarsDetermined(t, trail[0], s, FIRST, FIRST, |t.stars|);
  }

  lemma RetracePass(t: Terms, trail: seq<Pos>, moves: seq<MoveRec>, n: nat, now: seq<Pos>, k: nat)
    requires History(t, trail, moves, n) && k < n && Retraced(t, trail, now, moves, k) && moves[k + 1].point == PASS
    ensures ForwardOk(t, now[k], moves[k], moves[k + 1], k) && Retraced(t, trail, now + [now[k]], moves, k + 1)
  {
    StepUndoes(t, trail, moves, n, k + 1);
    assert Step(t, trail[k], trail[k + 1], moves[k], moves[k + 1], k);
    HistoryGrows(t, now, moves, k, now[k], moves);
  }

  /** Each recorded move is accepted again and leads to the recorded entry. */
  lemma RetraceMove(t: Terms, trail: seq<Pos>, moves: seq<MoveRec>, n: nat, now: seq<Pos>, k: nat)
    requires History(t, trail, moves, n) && k < n && Retraced(t, trail, now, moves, k) && moves[k + 1].point >= 0
    ensures ForwardOk(t, now[k], moves[k], moves[k + 1], k)
    ensures var p := moves[k + 1].point; var o := Move(t.e, now[k], p, ColourOf(k + 1));
            && moves == Put(moves, k + 1, Entered(p, o))
            && Retraced(t, trail, now + [o.look.pos], moves, k + 1)
  {
    hide Move, Standing, Tallied, Unwind, Starting, StarsFit;
    StepUndoes(t, trail, moves, n, k + 1);
    StepAgain(t, trail[k], trail[k + 1], moves[k], moves[k + 1], k, now[k]);
    var o := Move(t.e, now[k], moves[k + 1].point, ColourOf(k + 1));
    MoveFollowsRules(t.e, now[k], moves[k + 1].point, ColourOf(k + 1));
    HistoryGrows(t, now, moves, k, o.look.pos, moves);
  }

  // The verdict on a move ---------------------------------------------------------------

  /** The board b, reached with move n, occurred earlier with the same player to move. */
  ghost predicate Repeats(trail: seq<Pos>, n: nat, b: Board) {
    exists i :: 0 <= i < |trail| && i + 2 <= n && (n - i) % 2 == 0 && trail[i].board == b
  }

  /** No repetition among the positions after i. */
  ghost predicate NoneAfter(trail: seq<Pos>, n: nat, i: int, b: Board) {
    forall k {:trigger trail[k]} :: 0 <= k < |trail| && i < k && k + 2 <= n && (n - k) % 2 == 0 ==> trail[k].board != b
  }

  lemma RepeatFound(trail: seq<Pos>, n: nat, i: nat, b: Board)
    requires i < |trail| && i + 2 <= n && n % 2 == i % 2 && trail[i].board == b
    ensures Repeats(trail, n, b)
  {
    assert (n - i) % 2 == 0;
  }

  lemma NoneAtAll(trail: seq<Pos>, n: nat, i: int, b: Board)
    requires NoneAfter(trail, n, i, b) && i < 0
    ensures !Repeats(trail, n, b)
  {
  }

  lemma NoneBefore(trail: seq<Pos>, n: nat, i: int, b: Board)
    requires n % 2 == i % 2
    requires NoneAfter(trail, n, i, b) && (0 <= i < |trail| && i + 2 <= n ==> trail[i].board != b)
    ensures NoneAfter(trail, n, i - 2, b)
  {
  }

  /** mink_play accepts a move at p: it is open, not barred as suicide and, when
      ko is asked for, repeats no earlier board. */
  ghost predicate Accepts(t: Terms, trail: seq<Pos>, s: Pos, prevKo: int, p: int, nr: nat, ko: bool)
    requires Sound(t.e, s) && 0 <= p < |s.board|
  {
    && Open(t, s.board, prevKo, p, nr)
    && var o := Move(t.e, s, p, ColourOf(nr + 1));
      && !SuicideBarred(t, o.self)
      && !(ko && Repeats(trail, nr + 1, o.look.pos.board))
  }

  /** The verdict in terms of the naive rules alone: Black makes the odd moves;
      under Ing rules White's moves before number 2 * handicap + 1 are barred. */
  lemma AcceptsByRules(t: Terms, trail: seq<Pos>, s: Pos, prevKo: int, p: int, nr: nat, ko: bool)
    requires Sound(t.e, s) && 0 <= p < |s.board|
    ensures Accepts(t, trail, s, prevKo, p, nr, ko) <==>
      && s.board[p] == EMPTY && p != prevKo
      && !(t.rules == RULES_ING && nr % 2 == 1 && nr < 2 * t.handicap)
      && var b := PlayOn(s.board, t.e.v, p, if nr % 2 == 0 then BLACK else WHITE);
        && !(t.rules == RULES_NET && b[p] == EMPTY)
        && !(ko && exists i {:trigger trail[i]} ::
               0 <= i < |trail| && i <= nr - 1 && (nr + 1 - i) % 2 == 0 && trail[i].board == b)
  {
    hide Move, Standing, Tallied, PlayOn;
    if s.board[p] == EMPTY {
      MoveFollowsRules(t.e, s, p, ColourOf(nr + 1));
    }
  }

  lemma PlayedByRules(t: Terms, s: Pos, p: int, nr: nat)
    requires Sound(t.e, s) && 0 <= p < |s.board|
    ensures s.board[p] == EMPTY ==>
      var c := if nr % 2 == 0 then BLACK else WHITE;
      Move(t.e, s, p, ColourOf(nr + 1)).look.pos.board == PlayOn(s.board, t.e.v, p, c)
  {
    hide Move, Standing, Tallied, PlayOn;
    if s.board[p] == EMPTY {
      MoveFollowsRules(t.e, s, p, ColourOf(nr + 1));
    }
  }

  /** Under Ing rules White has passed while Black placed the handicap. */
  lemma IngPasses(t: Terms, trail: seq<Pos>, moves: seq<MoveRec>, n: nat, i: nat)
    requires History(t, trail, moves, n) && t.rules == RULES_ING
    requires 2 <= i <= n && i % 2 == 0 && i <= 2 * t.handicap
    ensures moves[i].point == PASS
  {
    hide Move, Standing, Tallied;
    StepUndoes(t, trail, moves, n, i);
  }

  /** The search for repetition does not have to go back over a handicap entry:
      there is none, or the start of the game is not among the positions looked
      at, or its hash, the empty one, rules it out. */
  predicate NoWrap(moves: seq<MoveRec>, n: nat, h: Hash) {
    n >= 2 && |moves| > 1 && n % 2 == 0 && moves[1].point < PASS ==> h != {}
  }

  function Put(moves: seq<MoveRec>, i: nat, m: MoveRec): (r: seq<MoveRec>)
    requires i <= |moves|
    ensures i < |r| && r[i] == m && r[..i] == moves[..i]
  {
    if i < |moves| then moves[i := m] else moves + [m]
  }

  /** The two histories agree outside entry n. */
  ghost predicate KeptBut(moves: seq<MoveRec>, now: seq<MoveRec>, n: nat) {
    n < |moves| && |now| == |moves| && now[..n] == moves[..n] && now[n + 1..] == moves[n + 1..]
  }

  lemma PutInto(moves: seq<MoveRec>, n: nat, m: MoveRec, now: seq<MoveRec>, m': MoveRec)
    requires n <= |moves| && KeptBut(Put(moves, n, m), now, n)
    ensures Put(now, n, m') == Put(moves, n, m') && now[..n] == moves[..n]
  {
    var put := Put(moves, n, m);
    assert put[..n] == moves[..n];
    forall i | 0 <= i < |put|
      ensures Put(now, n, m')[i] == Put(moves, n, m')[i]
    {
      if i < n {
        assert now[i] == now[..n][i] && put[i] == put[..n][i];
      } else if i > n {
        assert now[i] == now[n + 1..][i - n - 1] && put[i] == put[n + 1..][i - n - 1];
      }
    }
  }

  lemma PutKeeps(moves: seq<MoveRec>, n: nat, now: seq<MoveRec>)
    requires 0 < n <= |moves| && n <= |now| && now[..n] == moves[..n]
    ensures now[n - 1] == moves[n - 1]
  {
    assert now[n - 1] == now[..n][n - 1];
  }

  lemma PutTwice(moves: seq<MoveRec>, i: nat, m: MoveRec, m': MoveRec)
    requires i <= |moves|
    ensures Put(Put(moves, i, m), i, m') == Put(moves, i, m')
    ensures forall k :: 0 <= k < i ==> Put(moves, i, m)[k] == moves[k]
  {
  }

  lemma StepUndoes(t: Terms, trail: seq<Pos>, moves: seq<MoveRec>, n: nat, k: nat)
    requires History(t, trail, moves, n) && 0 < k <= n
    ensures moves[k].point == PASS ==> trail[k] == trail[k - 1]
    ensures moves[k].point >= 0 ==>
      && Played(t, trail[k - 1], trail[k], moves[k - 1], moves[k], k - 1)
      && moves[k - 1].hash == trail[k - 1].hash
    ensures moves[k].point < PASS ==> k == 1 && Handicapped(t, trail[0], trail[1], moves[1], 0)
  {
    var i := k - 1;
    assert Step(t, trail[i], trail[i + 1], moves[i], moves[i + 1], i);
  }

  // Going back and forth -----------------------------------------------------------------

  /** Entry m, the nr-th, tells how to get back from s to prev, the hash excepted. */
  ghost predicate Undoes(e: Env, prev: Pos, s: Pos, m: MoveRec, nr: nat) {
    && (m.point == PASS ==> prev == s)
    && (m.point >= 0 ==>
      && CanMove(e, prev, m.point, ColourOf(nr))
      && var o := Move(e, prev, m.point, ColourOf(nr)); s == o.look.pos && m.taken == o.taken && m.self == o.self)
  }

  /** With the hash that the entry before it recorded. */
  ghost predicate UndoOk(e: Env, prev: Pos, s: Pos, before: MoveRec, m: MoveRec, nr: nat) {
    Undoes(e, prev, s, m, nr) && (m.point >= 0 ==> before.hash == prev.hash)
  }

  lemma UndoesSame(e: Env, prev: Pos, s: Pos, m: MoveRec, m': MoveRec, nr: nat)
    requires Undoes(e, prev, s, m, nr) && m'.point == m.point && m'.taken == m.taken && m'.self == m.self
    ensures Undoes(e, prev, s, m', nr)
  {
  }

  /** Entry m can be played from s, after nr moves, and is accepted. */
  ghost predicate ForwardOk(t: Terms, s: Pos, before: MoveRec, m: MoveRec, nr: nat) {
    && m.point >= PASS
    && (m.point >= 0 ==>
      && CanMove(t.e, s, m.point, ColourOf(nr + 1))
      && Open(t, s.board, before.ko, m.point, nr)
      && !SuicideBarred(t, Move(t.e, s, m.point, ColourOf(nr + 1)).self))
  }

  /** Move n has been carried out, leading to s, but not yet fully entered. */
  ghost predicate Awaiting(t: Terms, trail: seq<Pos>, moves: seq<MoveRec>, n: nat, s: Pos, kostat: int) {
    && 0 < n < |moves| && |trail| == n
    && History(t, trail, moves, n - 1)
    && var m := moves[n];
    && m.point >= 0
    && ForwardOk(t, trail[n - 1], moves[n - 1], m, n - 1)
    && UndoOk(t.e, trail[n - 1], s, moves[n - 1], m, n)
    && kostat == Move(t.e, trail[n - 1], m.point, ColourOf(n)).look.kostat
  }

  lemma HistorySame(t: Terms, trail: seq<Pos>, moves: seq<MoveRec>, n: nat, moves': seq<MoveRec>)
    requires History(t, trail, moves, n) && |moves'| > n && moves'[..n + 1] == moves[..n + 1]
    ensures History(t, trail, moves', n)
  {
    forall i | 0 <= i <= n
      ensures moves'[i] == moves[i]
    {
      assert moves'[i] == moves'[..n + 1][i];
    }
    forall i | 0 <= i < n
      ensures Step(t, trail[i], trail[i + 1], moves'[i], moves'[i + 1], i)
    {
      assert Step(t, trail[i], trail[i + 1], moves[i], moves[i + 1], i);
    }
  }

  lemma UndoableAt(t: Terms, trail: seq<Pos>, moves: seq<MoveRec>, n: nat, s: Pos, kostat: int, j: nat)
    requires Awaiting(t, trail, moves, n, s, kostat) && 0 < j <= n && (j == 1 ==> moves[1].point >= PASS)
    ensures var full := trail + [s];
            UndoOk(t.e, full[j - 1], full[j], moves[j - 1], moves[j], j) && moves[j].point >= PASS
  {
    if j < n {
      StepUndoes(t, trail, moves, n - 1, j);
    }
  }

  lemma AwaitingSame(t: Terms, trail: seq<Pos>, moves: seq<MoveRec>, n: nat, s: Pos, kostat: int, now: seq<MoveRec>)
    requires Awaiting(t, trail, moves, n, s, kostat) && |now| == |moves| && now[..n] == moves[..n]
    requires now[n].point == moves[n].point && now[n].taken == moves[n].taken && now[n].self == moves[n].self
    ensures Awaiting(t, trail, now, n, s, kostat)
  {
    HistorySame(t, trail, moves, n - 1, now);
    assert now[n - 1] == now[..n][n - 1] == moves[n - 1];
  }

  lemma AwaitingEntered(t: Terms, trail: seq<Pos>, moves: seq<MoveRec>, n: nat, s: Pos, kostat: int)
    requires Awaiting(t, trail, moves, n, s, kostat)
    ensures var m := Entered(moves[n].point, Move(t.e, trail[n - 1], moves[n].point, ColourOf(n)));
            Awaiting(t, trail, Put(moves, n, m), n, s, kostat) && Put(moves, n, m)[..n] == moves[..n]
  {
    var m := Entered(moves[n].point, Move(t.e, trail[n - 1], moves[n].point, ColourOf(n)));
    AwaitingSame(t, trail, moves, n, s, kostat, Put(moves, n, m));
  }

  /** From any position of the trail the next entry is accepted again and leads
      to the next position, whatever the pending entry holds besides its point. */
  lemma ForwardableAt(t: Terms, trail: seq<Pos>, moves: seq<MoveRec>, n: nat, s: Pos, kostat: int, j: nat,
      now: seq<MoveRec>)
    requires Awaiting(t, trail, moves, n, s, kostat) && j < n && (j == 0 ==> moves[1].point >= PASS)
    requires KeptBut(moves, now, n)
    requires now[n].point == moves[n].point && now[n].taken == moves[n].taken && now[n].self == moves[n].self
    ensures var full, p := trail + [s], now[j + 1].point;
            && ForwardOk(t, full[j], now[j], now[j + 1], j)
            && now[j].hash == full[j].hash
            && (p == PASS ==> full[j + 1] == full[j] && j + 1 < n)
            && (p >= 0 ==> var o := Move(t.e, full[j], p, ColourOf(j + 1));
              && full[j + 1] == o.look.pos
              && Awaiting(t, trail, Put(now, j + 1, Entered(p, o)), n, s, kostat)
              && (j + 1 == n ==> kostat == o.look.kostat)
              && KeptBut(moves, Put(now, j + 1, Entered(p, o)), n))
  {
    hide Move, Tallied, Standing;
    assert now[j] == now[..n][j] == moves[j];
    HistorySame(t, trail, moves, n - 1, now);
    if j + 1 < n {
      assert now[j + 1] == now[..n][j + 1] == moves[j + 1];
      StepUndoes(t, trail, moves, n - 1, j + 1);
      var p := now[j + 1].point;
      if p >= 0 {
        var o := Move(t.e, trail[j], p, ColourOf(j + 1));
        assert Put(now, j + 1, Entered(p, o)) == now;
        AwaitingSame(t, trail, moves, n, s, kostat, now);
      }
    } else {
      var p := now[n].point;
      var o := Move(t.e, trail[j], p, ColourOf(n));
      AwaitingSame(t, trail, moves, n, s, kostat, now);
      AwaitingEntered(t, trail, now, n, s, kostat);
    }
  }

  lemma AwaitingStart(t: Terms, trail: seq<Pos>, moves: seq<MoveRec>, n: nat, m: MoveRec)
    requires History(t, trail, moves, n) && m.point >= 0
    requires CanMove(t.e, trail[n], m.point, ColourOf(n + 1)) && Open(t, trail[n].board, moves[n].ko, m.point, n)
    requires var o := Move(t.e, trail[n], m.point, ColourOf(n + 1));
      m.taken == o.taken && m.self == o.self && !SuicideBarred(t, o.self)
    ensures var o := Move(t.e, trail[n], m.point, ColourOf(n + 1));
            Awaiting(t, trail, Put(moves, n + 1, m), n + 1, o.look.pos, o.look.kostat)
  {
    HistorySame(t, trail, moves, n, Put(moves, n + 1, m));
    PutTwice(moves, n + 1, m, m);
  }

  /** Equal boards have equal recorded hashes, so only recorded hashes have to be compared. */
  lemma HashTells(t: Terms, trail: seq<Pos>, moves: seq<MoveRec>, n: nat, s: Pos, kostat: int, i: nat)
    requires Awaiting(t, trail, moves, n, s, kostat) && Sound(t.e, s) && i < n
    ensures moves[i].hash != s.hash ==> trail[i].board != s.board
    ensures NoWrap(moves, n, s.hash) && moves[i].hash == s.hash && i == 0 && n % 2 == 0 ==> moves[1].point >= PASS
  {
    hide Move, ForwardOk, UndoOk;
    assert Sound(t.e, trail[i]);
    if trail[i].board == s.board {
      SameBoardSameHash(t.e, trail[i], s);
    }
  }
}
