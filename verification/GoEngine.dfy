/** What the routines of the Go engine do, step by step, to a position: the
    board, the union-find array, its undo log, the hash and the capture counts.
    The game object is proved to perform exactly these steps. */
module GoEngine {
  import opened GoBoard

  /** A hash word, as the set of its one bits. */
  type Hash = set<nat>

  function Xor(a: Hash, b: Hash): Hash {
    (a - b) + (b - a)
  }

  /** The row stride and the table of hash keys, one per point and colour. */
  datatype Env = Env(v: nat, zob: (int, int) -> Hash)

  /** A logged change of the union-find array; index 0 marks the start of a move. */
  datatype Entry = Entry(index: int, value: int)

  const MARK := Entry(0, 0)

  datatype Pos = Pos(board: Board, uf: seq<int>, log: seq<Entry>, hash: Hash, caps: seq<int>)

  ghost predicate Shape(e: Env, s: Pos) {
    && |s.uf| == |s.board|
    && |s.caps| == 4
    && Framed(s.board, e.v)
    && Coloured(s.board)
  }

  function Points(b: Board, c: int): set<int> {
    set p | 0 <= p < |b| && b[p] == c
  }

  /** The number of c-coloured points. */
  function Count(b: Board, c: int): nat {
    |Points(b, c)|
  }

  lemma CountUpdate(b: Board, p: int, x: int, c: int)
    requires 0 <= p < |b|
    ensures Count(b[p := x], c) == Count(b, c) + (if x == c then 1 else 0) - (if b[p] == c then 1 else 0)
  {
    if x == c {
      assert Points(b[p := x], c) == Points(b, c) + {p};
    } else {
      assert Points(b[p := x], c) == Points(b, c) - {p};
    }
  }

  // Following the union-find array -------------------------------------------

  predicate AtRoot(uf: seq<int>, p: int)
    requires 0 <= p < |uf|
  {
    !(0 < uf[p] < |uf|)
  }

  function Walk(uf: seq<int>, p: int, n: nat): (r: int)
    requires 0 <= p < |uf|
    ensures 0 <= r < |uf|
    decreases n
  {
    if n == 0 || AtRoot(uf, p) then p else Walk(uf, uf[p], n - 1)
  }

  /** Where following uf from p ends. */
  ghost function Root(uf: seq<int>, p: int): (r: int)
    requires 0 <= p < |uf|
    ensures 0 <= r < |uf|
  {
    if n: nat :| AtRoot(uf, Walk(uf, p, n)) then Walk(uf, p, n) else p
  }

  lemma {:induction false} WalkEndsOnce(uf: seq<int>, p: int, m: nat, n: nat)
    requires 0 <= p < |uf| && AtRoot(uf, Walk(uf, p, m)) && AtRoot(uf, Walk(uf, p, n))
    ensures Walk(uf, p, m) == Walk(uf, p, n)
    decreases n
  {
    if m > 0 && n > 0 && !AtRoot(uf, p) {
      WalkEndsOnce(uf, uf[p], m - 1, n - 1);
    }
  }

  lemma RootIs(uf: seq<int>, p: int, n: nat)
    requires 0 <= p < |uf| && AtRoot(uf, Walk(uf, p, n))
    ensures Root(uf, p) == Walk(uf, p, n)
  {
    var m: nat :| AtRoot(uf, Walk(uf, p, m)) && Root(uf, p) == Walk(uf, p, m);
    WalkEndsOnce(uf, p, m, n);
  }

  /** Following uf from p ends at a root. */
  ghost predicate Ends(uf: seq<int>, p: int)
    requires 0 <= p < |uf|
  {
    exists n: nat :: uf[Walk(uf, p, n)] <= 0
  }

  ghost predicate Grounded(s: Pos, c: int)
    requires |s.uf| == |s.board|
  {
    forall p {:trigger Ends(s.uf, p)} :: 0 <= p < |s.uf| && s.board[p] == c ==> Ends(s.uf, p)
  }

  // Logged changes -----------------------------------------------------------

  function UfSet(s: Pos, i: int, x: int): (r: Pos)
    requires 0 <= i < |s.uf|
  {
    s.(uf := s.uf[i := x], log := s.log + [Entry(i, s.uf[i])])
  }

  function UfAdd(s: Pos, i: int, x: int): (r: Pos)
    requires 0 <= i < |s.uf|
  {
    UfSet(s, i, s.uf[i] + x)
  }

  /** Unwind the log down to the last mark, which goes too. */
  function Unwind(uf: seq<int>, log: seq<Entry>): (r: (seq<int>, seq<Entry>))
    ensures |r.0| == |uf|
    decreases |log|
  {
    if |log| == 0 then (uf, log)
    else
      var e := log[|log| - 1];
      if e.index == 0 then (uf, log[..|log| - 1])
      else Unwind(if 0 <= e.index < |uf| then uf[e.index := e.value] else uf, log[..|log| - 1])
  }

  // Flooding a region --------------------------------------------------------

  function Paint(e: Env, s: Pos, p: int, c: int, x: int, gain: int): (r: Pos)
    requires 0 <= p < |s.board| && |s.caps| == 4 && 0 <= c < 4
  {
    s.(hash := Xor(s.hash, e.zob(p, c)), board := s.board[p := x], caps := s.caps[c := s.caps[c] + gain])
  }

  /** Remove the c-coloured region at p; at an enemy stone credit its group with
      one liberty edge instead. */
  ghost function Capture(e: Env, s: Pos, p: int, c: int): (r: (Pos, nat))
    requires Shape(e, s) && 0 <= p < |s.board|
    ensures Shape(e, r.0) && |r.0.board| == |s.board| && Count(r.0.board, c) <= Count(s.board, c)
    decreases Count(s.board, c), 0
  {
    if s.board[p] == EMPTY || s.board[p] == EDGE then (s, 0)
    else if s.board[p] == c then
      CountUpdate(s.board, p, EMPTY, c);
      var a := CaptureAround(e, Paint(e, s, p, c, EMPTY, 1), p, c, 0);
      (a.0, 1 + a.1)
    else
      (UfAdd(s, Root(s.uf, p), -1), 0)
  }

  ghost function CaptureAround(e: Env, s: Pos, p: int, c: int, d: nat): (r: (Pos, nat))
    requires Shape(e, s) && 2 <= e.v <= p < |s.board| - e.v && d <= 4
    ensures Shape(e, r.0) && |r.0.board| == |s.board| && Count(r.0.board, c) <= Count(s.board, c)
    decreases Count(s.board, c), 5 - d
  {
    if d == 4 then (s, 0)
    else
      var a := Capture(e, s, Nbr(e.v, p, d), c);
      var r := CaptureAround(e, a.0, p, c, d + 1);
      (r.0, a.1 + r.1)
  }

  /** Fill the empty region at p with stones of colour c. */
  ghost function Fill(e: Env, s: Pos, p: int, c: int): (r: Pos)
    requires Shape(e, s) && 0 <= p < |s.board| && IsStone(c)
    ensures Shape(e, r) && |r.board| == |s.board| && Count(r.board, EMPTY) <= Count(s.board, EMPTY)
    decreases Count(s.board, EMPTY), 0
  {
    if s.board[p] == EMPTY then
      CountUpdate(s.board, p, c, EMPTY);
      FillAround(e, Paint(e, s, p, c, c, -1), p, c, 0)
    else s
  }

  ghost function FillAround(e: Env, s: Pos, p: int, c: int, d: nat): (r: Pos)
    requires Shape(e, s) && 2 <= e.v <= p < |s.board| - e.v && d <= 4 && IsStone(c)
    ensures Shape(e, r) && |r.board| == |s.board| && Count(r.board, EMPTY) <= Count(s.board, EMPTY)
    decreases Count(s.board, EMPTY), 5 - d
  {
    if d == 4 then s else FillAround(e, Fill(e, s, Nbr(e.v, p, d), c), p, c, d + 1)
  }

  // Playing a stone ----------------------------------------------------------

  /** The position together with the scratch fields of a move in progress. */
  datatype Look = Look(pos: Pos, root: int, kostat: int)

  ghost predicate LookShape(e: Env, g: Look) {
    Shape(e, g.pos) && 0 <= g.root < |g.pos.board|
  }

  /** Look at neighbour n of the stone just placed; tell whether it got captured. */
  ghost function Neighbour(e: Env, g: Look, n: int, c: int): (r: (Look, bool))
    requires LookShape(e, g) && 0 <= n < |g.pos.board|
    ensures LookShape(e, r.0) && |r.0.pos.board| == |g.pos.board|
  {
    var s := g.pos;
    var nc := s.board[n];
    var nr := Root(s.uf, n);
    if nc == EDGE then (g, false)
    else if nc == EMPTY then (Look(UfAdd(s, g.root, -1), g.root, -1), false)
    else if nc == c then
      var both := s.uf[g.root] + s.uf[nr] + 1;
      if nr == g.root then (Look(UfAdd(s, nr, 1), g.root, -1), false)
      else if s.uf[g.root] < s.uf[nr] then (Look(UfSet(UfSet(s, g.root, both), nr, g.root), g.root, -1), false)
      else (Look(UfSet(UfSet(s, nr, both), g.root, nr), nr, -1), false)
    else if s.uf[nr] == -1 then
      var a := Capture(e, s, n, nc);
      (Look(a.0, g.root, if a.1 == 1 && g.kostat == 0 then n else -1), true)
    else (Look(UfAdd(s, nr, 1), g.root, g.kostat), false)
  }

  /** Look at the neighbours of p in directions d to 3. */
  ghost function LookAround(e: Env, g: Look, p: int, c: int, d: nat): (r: (Look, seq<bool>))
    requires LookShape(e, g) && 2 <= e.v <= p < |g.pos.board| - e.v && d <= 4
    ensures LookShape(e, r.0) && |r.0.pos.board| == |g.pos.board| && |r.1| == 4 - d
    decreases 4 - d
  {
    if d == 4 then (g, [])
    else
      var a := Neighbour(e, g, Nbr(e.v, p, d), c);
      var r := LookAround(e, a.0, p, c, d + 1);
      (r.0, [a.1] + r.1)
  }

  /** The position with a marked, still unconnected stone of colour c at p. */
  function Place(e: Env, s: Pos, p: int, c: int): (r: Pos)
    requires 0 <= p < |s.board| && p < |s.uf|
  {
    UfSet(s.(board := s.board[p := c], hash := Xor(s.hash, e.zob(p, c)), log := s.log + [MARK]), p, 0)
  }

  /** What a move left: the position, which neighbours were captured, whether it
      was suicide, and the scratch fields. */
  datatype Outcome = Outcome(look: Look, taken: seq<bool>, self: bool)

  ghost function Move(e: Env, s: Pos, p: int, c: int): (r: Outcome)
    requires Shape(e, s) && 0 <= p < |s.board| && s.board[p] == EMPTY && IsStone(c)
    ensures LookShape(e, r.look) && |r.look.pos.board| == |s.board| && |r.taken| == 4
  {
    var a := LookAround(e, Look(Place(e, s, p, c), p, 0), p, c, 0);
    var self := a.0.pos.uf[a.0.root] == 0;
    Outcome(if self then a.0.(pos := Capture(e, a.0.pos, p, c).0) else a.0, a.1, self)
  }

  /** Take the move back: refill what was captured, unwind the log, lift the
      stone. hash is the one recorded for the move before. */
  ghost function Retract(e: Env, s: Pos, p: int, c: int, taken: seq<bool>, self: bool, hash: Hash): (r: Pos)
    requires Shape(e, s) && IsStone(c) && |taken| == 4 && 2 <= e.v <= p < |s.board| - e.v
  {
    var f := if self then Fill(e, s, p, c) else Refill(e, s, p, Other(c), taken, 0);
    var u := Unwind(f.uf, f.log);
    Pos(f.board[p := EMPTY], u.0, u.1, hash, f.caps)
  }

  ghost function Refill(e: Env, s: Pos, p: int, c: int, taken: seq<bool>, d: nat): (r: Pos)
    requires Shape(e, s) && IsStone(c) && |taken| == 4 && d <= 4 && 2 <= e.v <= p < |s.board| - e.v
    ensures Shape(e, r) && |r.board| == |s.board|
    decreases 4 - d
  {
    if d == 4 then s
    else Refill(e, if taken[d] then Fill(e, s, Nbr(e.v, p, d), c) else s, p, c, taken, d + 1)
  }
}
