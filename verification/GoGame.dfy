/** The game object: boards and union-find array in place, undo log and move
    history as growing lists. */
module GoGame {
  import opened GoBoard
  import opened GoRules
  import opened GoEngine
  import opened GoTally
  import opened GoPlay
  import opened GoHistory
  import opened GoStart
  import opened GoStars
  import opened GoScore
  import opened GoBorder

  class Game {
    const width: nat
    const height: nat
    const rules: int
    const zob: (int, int) -> Hash
    const board: array<int>
    const uf: array<int>
    var uflog: seq<Entry>
    var hash: Hash
    var caps: seq<int>
    var moves: seq<MoveRec>
    var movenr: nat
    var root: int
    var kostat: int
    var handicap: int

    function E(): Env {
      Env(width + 1, zob)
    }

    ghost function Cur(): Pos
      reads this, board, uf
    {
      Pos(board[..], uf[..], uflog, hash, caps)
    }

    ghost function Now(): Look
      reads this, board, uf
    {
      Look(Cur(), root, kostat)
    }

    ghost predicate Apart() {
      board != uf
    }

    ghost function T(): Terms
      reads this`handicap
    {
      Terms(E(), rules, StartBoard(width, height), handicap, HandicapPoints(width, handicap))
    }

    ghost predicate Valid()
      reads this, board, uf
    {
      && Apart()
      && board.Length == uf.Length == BoardSize(width, height)
      && Sound(E(), Cur())
      && Bordered(board[..], width, height)
      && movenr < |moves|
      && moves[0].point == 0 && moves[0].ko == 0 && moves[0].hash == {}
    }

    /** The game stands where its history, told by the trail of positions, says. */
    ghost predicate Synced(trail: seq<Pos>)
      reads this, board, uf
    {
      Valid() && History(T(), trail, moves, movenr) && Cur() == trail[movenr]
    }

    // Logged changes --------------------------------------------------------------

    method UfMark()
      requires Apart()
      modifies this`uflog
      ensures uflog == old(uflog) + [MARK]
    {
      uflog := uflog + [MARK];
    }

    method UfSet(i: nat, x: int)
      requires Apart() && i < uf.Length
      modifies this`uflog, uf
      ensures Cur() == GoEngine.UfSet(old(Cur()), i, x)
    {
      uflog := uflog + [Entry(i, uf[i])];
      uf[i] := x;
    }

    method UfAdd(i: nat, x: int)
      requires Apart() && i < uf.Length
      modifies this`uflog, uf
      ensures Cur() == GoEngine.UfAdd(old(Cur()), i, x)
    {
      uflog := uflog + [Entry(i, uf[i])];
      uf[i] := uf[i] + x;
    }

    method FindRoot(p: nat) returns (r: nat)
      requires board.Length == uf.Length && p < uf.Length && Ends(uf[..], p)
      ensures r < uf.Length && r == Root(uf[..], p)
    {
      ghost var u := uf[..];
      ghost var n: nat :| u[Walk(u, p, n)] <= 0;
      RootIs(u, p, n);
      r := p;
      while uf[r] > 0
        invariant r < uf.Length && u[Walk(u, r, n)] <= 0 && Root(u, p) == Walk(u, r, n)
        decreases n
      {
        r := uf[r];
        n := n - 1;
      }
    }

    // Floods ----------------------------------------------------------------------

    /** The board, hash and capture updates of one point. */
    method PaintPoint(p: nat, c: int, x: int, gain: int)
      requires Apart() && Shape(E(), Cur()) && p < board.Length && IsStone(c)
      modifies this`hash, this`caps, board
      ensures Cur() == Paint(E(), old(Cur()), p, c, x, gain)
    {
      hash := Xor(hash, zob(p, c));
      board[p] := x;
      caps := caps[c := caps[c] + gain];
    }

    method Fill(p: nat, c: int)
      requires Apart() && Shape(E(), Cur()) && p < board.Length && IsStone(c)
      modifies this`hash, this`caps, board
      ensures Cur() == GoEngine.Fill(E(), old(Cur()), p, c)
      decreases Count(board[..], EMPTY), 0
    {
      if board[p] == EMPTY {
        CountUpdate(board[..], p, c, EMPTY);
        PaintPoint(p, c, c, -1);
        FillNeighbours(p, c);
      }
    }

    method FillNeighbours(p: nat, c: int)
      requires Apart() && Shape(E(), Cur()) && width + 1 <= p < board.Length - (width + 1) && IsStone(c) && width > 0
      modifies this`hash, this`caps, board
      ensures Cur() == FillAround(E(), old(Cur()), p, c, 0)
      decreases Count(board[..], EMPTY), 1
    {
      hide GoEngine.Fill, Count;
      ghost var s0 := Cur();
      Fill(p - (width + 1), c);
      ghost var s1 := Cur();
      Fill(p - 1, c);
      ghost var s2 := Cur();
      Fill(p + 1, c);
      ghost var s3 := Cur();
      Fill(p + (width + 1), c);
      FillUnfold(E(), s0, s1, s2, s3, Cur(), p, c);
    }

    method Capture(p: nat, c: int) returns (n: nat)
      requires Apart() && Shape(E(), Cur()) && p < board.Length
      requires IsStone(board[p]) ==> IsStone(c) && Grounded(Cur(), Other(c))
      modifies this`hash, this`caps, this`uflog, board, uf
      ensures (Cur(), n) == GoEngine.Capture(E(), old(Cur()), p, c)
      decreases Count(board[..], c), 0
    {
      if board[p] == EMPTY || board[p] == EDGE {
        n := 0;
      } else if board[p] == c {
        ghost var s := Cur();
        CountUpdate(board[..], p, EMPTY, c);
        PaintPoint(p, c, EMPTY, 1);
        GroundedStays(s, Cur(), Other(c));
        var k := CaptureNeighbours(p, c);
        n := 1 + k;
      } else {
        assert Ends(Cur().uf, p);
        var r := FindRoot(p);
        UfAdd(r, -1);
        n := 0;
      }
    }

    /** Two of the four recursive calls, one after the other. */
    method CaptureTwo(p: nat, q: nat, c: int) returns (n: nat)
      requires Apart() && Shape(E(), Cur()) && p < board.Length && q < board.Length && IsStone(c)
      requires Grounded(Cur(), Other(c))
      modifies this`hash, this`caps, this`uflog, board, uf
      ensures var a := GoEngine.Capture(E(), old(Cur()), p, c); var b := GoEngine.Capture(E(), a.0, q, c);
              Cur() == b.0 && n == a.1 + b.1
      ensures Grounded(Cur(), Other(c))
      decreases Count(board[..], c), 1
    {
      ghost var s := Cur();
      var a := Capture(p, c);
      ghost var t := Cur();
      CaptureGrounded(E(), s, p, c);
      var b := Capture(q, c);
      CaptureGrounded(E(), t, q, c);
      n := a + b;
    }

    method CaptureNeighbours(p: nat, c: int) returns (n: nat)
      requires Apart() && Shape(E(), Cur()) && width + 1 <= p < board.Length - (width + 1) && IsStone(c) && width > 0
      requires Grounded(Cur(), Other(c))
      modifies this`hash, this`caps, this`uflog, board, uf
      ensures (Cur(), n) == CaptureAround(E(), old(Cur()), p, c, 0)
      decreases Count(board[..], c), 2
    {
      hide GoEngine.Capture;
      CaptureUnfold(E(), Cur(), p, c);
      var a := CaptureTwo(p - (width + 1), p - 1, c);
      var b := CaptureTwo(p + 1, p + (width + 1), c);
      n := a + b;
    }

    // A move --------------------------------------------------------------------------

    method Neighbour(n: nat, c: int) returns (taken: bool)
      requires Apart() && LookShape(E(), Now()) && n < board.Length && IsStone(c)
      requires Grounded(Cur(), c) && Grounded(Cur(), Other(c))
      modifies this`hash, this`caps, this`uflog, this`root, this`kostat, board, uf
      ensures (Now(), taken) == GoEngine.Neighbour(E(), old(Now()), n, c)
    {
      var nc := board[n];
      if nc == EDGE {
        return false;
      }
      if nc == EMPTY {
        UfAdd(root, -1);
        kostat := -1;
        return false;
      }
      assert Ends(Cur().uf, n);
      var nr := FindRoot(n);
      if nc == c {
        if nr == root {
          UfAdd(nr, 1);
        } else {
          var both := uf[root] + uf[nr] + 1;
          if uf[root] < uf[nr] {
            UfSet(root, both);
            UfSet(nr, root);
          } else {
            UfSet(nr, both);
            UfSet(root, nr);
            root := nr;
          }
        }
        kostat := -1;
        return false;
      }
      if uf[nr] == -1 {
        var k := Capture(n, nc);
        if k == 1 && kostat == 0 {
          kostat := n;
        } else {
          kostat := -1;
        }
        return true;
      }
      UfAdd(nr, 1);
      return false;
    }

    /** Two of the four looks, in directions d and d + 1. */
    method LookTwice(n: nat, m: nat, ghost p: int, c: int, ghost d: nat) returns (a: bool, b: bool)
      requires Apart() && IsStone(c) && d < 3 && LooksOn(E(), Now(), p, c, d)
      requires n == Nbr(width + 1, p, d) && m == Nbr(width + 1, p, d + 1)
      modifies this`hash, this`caps, this`uflog, this`root, this`kostat, board, uf
      ensures LooksOn(E(), Now(), p, c, d + 2)
      ensures var r := LookAround(E(), Now(), p, c, d + 2);
              LookAround(E(), old(Now()), p, c, d) == (r.0, [a, b] + r.1)
    {
      hide GoEngine.Neighbour;
      LooksNext(E(), Now(), p, c, d);
      a := Neighbour(n, c);
      LooksNext(E(), Now(), p, c, d + 1);
      b := Neighbour(m, c);
      ghost var r := LookAround(E(), Now(), p, c, d + 2);
      assert [a] + ([b] + r.1) == [a, b] + r.1;
    }

    /** The four neighbours of the stone at p, in the order up, left, right, down. */
    method LookAtNeighbours(p: nat, c: int) returns (taken: seq<bool>)
      requires Apart() && LookShape(E(), Now()) && IsStone(c) && LooksOn(E(), Now(), p, c, 0)
      modifies this`hash, this`caps, this`uflog, this`root, this`kostat, board, uf
      ensures (Now(), taken) == LookAround(E(), old(Now()), p, c, 0)
      ensures AllGrounded(Cur())
    {
      hide GoEngine.Neighbour, Ends, AtRoot;
      var up, left := LookTwice(p - (width + 1), p - 1, p, c, 0);
      var right, down := LookTwice(p + 1, p + (width + 1), p, c, 2);
      assert LookAround(E(), Now(), p, c, 4) == (Now(), []);
      taken := [up, left, right, down];
      assert taken == [up, left] + ([right, down] + []);
    }

    /** Put a stone on the board and see what it captures. */
    method PlayStone(p: nat, c: int) returns (taken: seq<bool>, self: bool)
      requires Apart() && CanMove(E(), Cur(), p, c)
      modifies this`hash, this`caps, this`uflog, this`root, this`kostat, board, uf
      ensures Outcome(Now(), taken, self) == Move(E(), old(Cur()), p, c)
    {
      MoveLooksOn(E(), Cur(), p, c);
      ghost var s := Cur();
      board[p] := c;
      hash := Xor(hash, zob(p, c));
      UfMark();
      UfSet(p, 0);
      root := p;
      kostat := 0;
      assert Cur() == Place(E(), s, p, c);
      taken := LookAtNeighbours(p, c);
      self := uf[root] == 0;
      if self {
        var _ := Capture(p, c);
      }
    }

    // Taking back ------------------------------------------------------------------------

    /** Column 0 of every row. */
    method DrawColumn()
      requires board.Length == BoardSize(width, height) && forall k :: 0 <= k < board.Length ==> board[k] == EMPTY
      modifies board
      ensures var e := LeftEdge(width + 1, board.Length);
              forall k :: 0 <= k < board.Length ==> board[k] == if e[k] then EDGE else EMPTY
    {
      ghost var e := LeftEdge(width + 1, board.Length);
      var y := 0;
      while y < board.Length
        invariant y % (width + 1) == 0
        invariant forall k :: 0 <= k < board.Length ==> board[k] == if k < y && e[k] then EDGE else EMPTY
      {
        LeftEdgeNext(width + 1, board.Length, y);
        board[y] := EDGE;
        y := y + (width + 1);
      }
    }

    /** The first and the last row. */
    method DrawRows()
      requires board.Length == BoardSize(width, height)
      modifies board
      ensures var v := width + 1;
              forall k :: 0 <= k < board.Length ==>
                board[k] == if 1 <= k < v || board.Length - v < k then EDGE else old(board[k])
    {
      ghost var n := board.Length;
      assert n == (width + 1) * (height + 1) + (width + 1);
      for x := 1 to width + 1
        invariant forall k :: 0 <= k < n ==>
          board[k] == if 1 <= k < x || n - (width + 1) < k < n - (width + 1) + x then EDGE else old(board[k])
      {
        board[x] := EDGE;
        board[x + board.Length - (width + 1)] := EDGE;
      }
    }

    /** Clear the board for a new game; the union-find array is left as it is. */
    method StartGame()
      requires Apart() && board.Length == uf.Length == BoardSize(width, height)
      modifies this`movenr, this`uflog, this`hash, this`caps, board
      ensures movenr == 0 && Cur() == Pos(StartBoard(width, height), old(uf[..]), [], {}, [0, 0, 0, 0])
    {
      movenr := 0;
      uflog := [];
      hash := {};
      caps := [0, 0, 0, 0];
      for x := 0 to board.Length
        modifies board
        invariant forall k :: 0 <= k < x ==> board[k] == EMPTY
      {
        board[x] := EMPTY;
      }
      DrawColumn();
      DrawRows();
      assert board.Length == (width + 1) * (height + 1) + (width + 1);
      LastRowEdge(width, height);
      LeftEdgeNext(width + 1, board.Length, 0);
      BorderIs(width, height, board[..]);
    }

    method UnwindLog()
      requires Apart() && HasMark(uflog) && forall i :: 0 <= i < |uflog| ==> 0 <= uflog[i].index < uf.Length
      modifies this`uflog, uf
      ensures (uf[..], uflog) == Unwind(old(uf[..]), old(uflog))
    {
      ghost var done := Unwind(uf[..], uflog);
      while uflog[|uflog| - 1].index != 0
        invariant HasMark(uflog) && Unwind(uf[..], uflog) == done
        invariant forall i :: 0 <= i < |uflog| ==> 0 <= uflog[i].index < uf.Length
        decreases |uflog|
      {
        var l := uflog[|uflog| - 1];
        MarkBefore(uflog);
        uf[l.index] := l.value;
        uflog := uflog[..|uflog| - 1];
      }
      uflog := uflog[..|uflog| - 1];
    }

    method RefillTwice(n: nat, m: nat, ghost p: int, t: int, taken: seq<bool>, d: nat)
      requires Apart() && Shape(E(), Cur()) && IsStone(t) && |taken| == 4 && d < 3
      requires width + 1 <= p < board.Length - (width + 1) && 0 < width
      requires n == Nbr(width + 1, p, d) && m == Nbr(width + 1, p, d + 1)
      modifies this`hash, this`caps, board
      ensures Shape(E(), Cur())
      ensures Refill(E(), old(Cur()), p, t, taken, d) == Refill(E(), Cur(), p, t, taken, d + 2)
    {
      if taken[d] {
        Fill(n, t);
      }
      if taken[d + 1] {
        Fill(m, t);
      }
    }

    method RefillNeighbours(p: nat, t: int, taken: seq<bool>)
      requires Apart() && Shape(E(), Cur()) && IsStone(t) && |taken| == 4
      requires width + 1 <= p < board.Length - (width + 1) && 0 < width
      modifies this`hash, this`caps, board
      ensures Cur() == Refill(E(), old(Cur()), p, t, taken, 0)
    {
      RefillTwice(p - (width + 1), p - 1, p, t, taken, 0);
      RefillTwice(p + 1, p + (width + 1), p, t, taken, 2);
    }

    method Lift(p: nat, c: int, mv: MoveRec, h: Hash, ghost prev: Pos)
      requires Apart() && CanMove(E(), prev, p, c)
      requires var o := Move(E(), prev, p, c); Cur() == o.look.pos && mv.taken == o.taken && mv.self == o.self
      modifies this`hash, this`caps, this`uflog, board, uf
      ensures Cur() == prev.(hash := h)
    {
      MoveRetracts(E(), prev, p, c, h);
      MoveFollowsRules(E(), prev, p, c);
      ghost var s := Cur();
      if mv.self {
        Fill(p, c);
      } else {
        RefillNeighbours(p, Other(c), mv.taken);
      }
      FilledLog(E(), s, p, c, mv.taken, mv.self);
      UnwindLog();
      board[p] := EMPTY;
      hash := h;
    }

    /** mink_back: prev is the position that the undone move was made in. It comes
        back with the hash that its entry in the history recorded, which is right
        exactly if prev had that hash. */
    method Undo(ghost prev: Pos) returns (ok: bool)
      requires Valid() && (movenr > 0 ==> Undoes(E(), prev, Cur(), moves[movenr], movenr))
      modifies this`movenr, this`hash, this`caps, this`uflog, board, uf
      ensures ok == (old(movenr) > 0)
      ensures !ok ==> Cur() == old(Cur()) && movenr == 0
      ensures ok && moves[old(movenr)].point >= PASS ==> movenr == old(movenr) - 1
      ensures ok && moves[old(movenr)].point == PASS ==> Cur() == prev
      ensures ok && moves[old(movenr)].point >= 0 ==> Cur() == prev.(hash := moves[movenr].hash)
      ensures ok && moves[old(movenr)].point < PASS ==>
        movenr == 0 && Cur() == Pos(StartBoard(width, height), old(uf[..]), [], {}, [0, 0, 0, 0])
      ensures Valid() <==> (ok && moves[old(movenr)].point >= 0 ==> moves[movenr].hash == prev.hash)
    {
      hide Bordered, Move, Sound;
      if movenr == 0 {
        return false;
      }
      var c := ColourOf(movenr);
      var mv := moves[movenr];
      movenr := movenr - 1;
      var p := mv.point;
      ok := true;
      if p < -1 {
        StartGame();
        StartSound(E(), Cur(), width, height);
        StartBordered(width, height);
        return;
      }
      if p == PASS {
        return;
      }
      MoveKeepsBorder(E(), prev, p, c, width, height);
      Lift(p, c, mv, moves[movenr].hash, prev);
      HashIsRight(E(), prev, moves[movenr].hash);
    }

    // Playing and repetition -----------------------------------------------------------------

    /** A move has been carried out but is not yet entered in the history. */
    ghost predicate Pending(trail: seq<Pos>)
      reads this, board, uf
    {
      Valid() && Awaiting(T(), trail, moves, movenr, Cur(), kostat)
    }

    /** What the code relies on when it looks for repetition. */
    ghost predicate Playable(p: nat, ko: bool)
      requires Valid() && p < board.Length
      reads this, board, uf
    {
      ko && Open(T(), board[..], moves[movenr].ko, p, movenr) ==>
        NoWrap(moves, movenr + 1, Move(E(), Cur(), p, ColourOf(movenr + 1)).look.pos.hash)
    }

    /** The hash after a move at p is refused: the recorded one, if the move was
        carried out and taken back. */
    ghost function RefusedHash(p: nat): Hash
      requires p < board.Length && movenr < |moves|
      reads this, board
    {
      if Open(T(), board[..], moves[movenr].ko, p, movenr) then moves[movenr].hash else hash
    }

    /** The stone is put on the board and the entry of the move begun. */
    method CarryOut(p: nat) returns (mv: MoveRec)
      requires Valid() && CanMove(E(), Cur(), p, ColourOf(movenr + 1))
      modifies this`movenr, this`moves, this`hash, this`caps, this`uflog, this`root, this`kostat, board, uf
      ensures movenr == old(movenr) + 1 && moves == Put(old(moves), movenr, mv)
      ensures Valid()
      ensures var o := Move(E(), old(Cur()), p, ColourOf(movenr));
              && Cur() == o.look.pos && kostat == o.look.kostat
              && mv.point == p && mv.taken == o.taken && mv.self == o.self
    {
      hide Move, Sound, Bordered;
      MoveFollowsRules(E(), Cur(), p, ColourOf(movenr + 1));
      MoveKeepsBorder(E(), Cur(), p, ColourOf(movenr + 1), width, height);
      movenr := movenr + 1;
      var taken, self := PlayStone(p, ColourOf(movenr));
      mv := if movenr < |moves| then moves[movenr] else FIRST;
      mv := mv.(point := p, taken := taken, self := self);
      moves := Put(moves, movenr, mv);
    }

    /** mink_play, in terms of what the engine does. */
    method PlayAt(p: nat, ko: bool, ghost trail: seq<Pos>) returns (ok: bool)
      requires Valid() && p < board.Length && (ko ==> Synced(trail)) && Playable(p, ko)
      modifies this`movenr, this`moves, this`hash, this`caps, this`uflog, this`root, this`kostat, board, uf
      ensures ok <==> old(Accepts(T(), trail, Cur(), moves[movenr].ko, p, movenr, ko))
      ensures !ok ==> Cur() == old(Cur().(hash := RefusedHash(p)))
      ensures !ok ==> movenr == old(movenr) < |moves| && moves[..movenr + 1] == old(moves[..movenr + 1])
      ensures ok ==> var o := Move(E(), old(Cur()), p, ColourOf(movenr));
        && Cur() == o.look.pos && kostat == o.look.kostat
        && movenr == old(movenr) + 1
        && moves == Put(old(moves), movenr, Entered(p, o))
      ensures !old(Open(T(), board[..], moves[movenr].ko, p, movenr)) ==> moves == old(moves)
      ensures Valid() <==> ok || old(RefusedHash(p) == hash)
      ensures old(Synced(trail)) ==> Synced(if ok then trail + [Cur()] else trail)
      decreases if ko then 12 else 3
    {
      hide Move, Sound, Repeats, Step, NoWrap, Bordered;
      ghost var n, ms := movenr, moves;
      if board[p] != EMPTY || p == moves[movenr].ko {
        return false;
      }
      if rules == RULES_ING && movenr % 2 == 1 && movenr < 2 * handicap {
        return false;
      }
      ok := PlayOpen(p, ko, trail);
      if ok && old(Synced(trail)) {
        PlayExtends(T(), trail, ms, n, p, ko);
      } else if old(Synced(trail)) {
        HistorySame(T(), trail, ms, n, moves);
      }
    }

    /** The rest of mink_play, once the point is known to be open. */
    method PlayOpen(p: nat, ko: bool, ghost trail: seq<Pos>) returns (ok: bool)
      requires Valid() && p < board.Length && Open(T(), board[..], moves[movenr].ko, p, movenr)
      requires Playable(p, ko) && (ko ==> Synced(trail))
      modifies this`movenr, this`moves, this`hash, this`caps, this`uflog, this`root, this`kostat, board, uf
      ensures var o := Move(E(), old(Cur()), p, old(ColourOf(movenr + 1)));
        && (ok <==> !SuicideBarred(T(), o.self) && !(ko && Repeats(trail, old(movenr) + 1, o.look.pos.board)))
        && (ok ==> Cur() == o.look.pos && kostat == o.look.kostat)
        && (ok ==> movenr == old(movenr) + 1 && moves == Put(old(moves), movenr, Entered(p, o)))
      ensures !ok ==> Cur() == old(Cur().(hash := moves[movenr].hash))
      ensures !ok ==> movenr == old(movenr) < |moves| && moves[..movenr + 1] == old(moves[..movenr + 1])
      ensures Valid() <==> ok || old(moves[movenr].hash == hash)
      decreases if ko then 11 else 2
    {
      hide Move, Sound, Repeats, Step, Starting, Awaiting, ForwardOk, Bordered;
      ghost var s := Cur();
      ghost var before := moves;
      var mv := CarryOut(p);
      PutTwice(before, movenr, mv, mv);
      if mv.self && rules == RULES_NET {
        var _ := Undo(s);
        return false;
      }
      if ko {
        AwaitingStart(T(), trail, before, movenr - 1, mv);
      }
      ok := Settle(ko, trail, mv, s, before);
    }

    /** Enter the move that has been carried out, or take it back if it repeats
        an earlier position: s is the position and before the history before it. */
    method Settle(ko: bool, ghost trail: seq<Pos>, mv: MoveRec, ghost s: Pos, ghost before: seq<MoveRec>)
      returns (ok: bool)
      requires Valid() && (ko ==> Pending(trail) && NoWrap(moves, movenr, hash))
      requires 0 < movenr <= |before| && moves == Put(before, movenr, mv) && mv.point >= 0
      requires ko ==> UndoOk(E(), s, Cur(), before[movenr - 1], mv, movenr)
      modifies this`movenr, this`moves, this`hash, this`caps, this`uflog, this`root, this`kostat, board, uf
      ensures Valid() && (ok <==> !(ko && old(Repeats(trail, movenr, board[..]))))
      ensures ok ==> Cur() == old(Cur()) && kostat == old(kostat) && movenr == old(movenr)
      ensures ok ==> moves == Put(before, movenr, mv.(ko := kostat, hash := hash))
      ensures !ok ==> Cur() == s && movenr == old(movenr) - 1 && moves[..movenr + 1] == before[..movenr + 1]
      decreases if ko then 10 else 1
    {
      hide Move, Sound, Repeats, Awaiting, Bordered, Undoes;
      var repeated := Repeated(ko, trail);
      PutInto(before, movenr, mv, moves, mv.(ko := kostat, hash := hash));
      if repeated {
        PutKeeps(before, movenr, moves);
        UndoesSame(E(), s, Cur(), mv, moves[movenr], movenr);
        var _ := Undo(s);
        return false;
      }
      moves := Put(moves, movenr, mv.(ko := kostat, hash := hash));
      return true;
    }

    /** The repetition check of a move, if it is asked for. */
    method Repeated(ko: bool, ghost trail: seq<Pos>) returns (found: bool)
      requires Valid() && (ko ==> Pending(trail) && NoWrap(moves, movenr, hash))
      modifies this`movenr, this`moves, this`hash, this`caps, this`uflog, this`root, this`kostat, board, uf
      ensures Valid() && movenr == old(movenr) && Cur() == old(Cur()) && kostat == old(kostat)
      ensures KeptBut(old(moves), moves, movenr) && moves[movenr].point == old(moves[movenr].point)
      ensures var m, m' := old(moves[movenr]), moves[movenr];
              m'.point == m.point && m'.taken == m.taken && m'.self == m.self
      ensures found <==> ko && Repeats(trail, movenr, board[..])
      decreases if ko then 9 else 0
    {
      hide Bordered;
      found := false;
      if ko {
        found := Superko(trail);
      }
    }

    /** mink_forward: play the next entry of the history again. */
    method Forward()
      requires Valid() && movenr + 1 < |moves|
      requires ForwardOk(T(), Cur(), moves[movenr], moves[movenr + 1], movenr)
      modifies this`movenr, this`moves, this`hash, this`caps, this`uflog, this`root, this`kostat, board, uf
      ensures Valid() && movenr == old(movenr) + 1
      ensures old(moves[movenr + 1].point) == PASS ==>
        Cur() == old(Cur()) && moves == old(moves) && kostat == old(kostat)
      ensures old(moves[movenr + 1].point) >= 0 ==>
        var o := Move(E(), old(Cur()), old(moves[movenr + 1].point), ColourOf(movenr));
        && Cur() == o.look.pos && kostat == o.look.kostat
        && moves == Put(old(moves), movenr, Entered(old(moves[movenr + 1].point), o))
      decreases 4
    {
      hide Bordered;
      var p := moves[movenr + 1].point;
      if p == PASS {
        movenr := movenr + 1;
      } else {
        var _ := PlayAt(p, false, []);
      }
    }

    method BackTo(i: nat, ghost trail: seq<Pos>)
      requires Pending(trail) && i < movenr && (i == 0 ==> moves[1].point >= PASS)
      modifies this`movenr, this`hash, this`caps, this`uflog, board, uf
      ensures Valid() && movenr == i && Cur() == trail[i]
    {
      hide Move, Sound, UndoOk, History, Bordered;
      ghost var n, s, k := movenr, Cur(), kostat;
      while movenr > i
        invariant i <= movenr <= n && Valid() && Cur() == (trail + [s])[movenr]
      {
        UndoableAt(T(), trail, moves, n, s, k, movenr);
        var _ := Undo((trail + [s])[movenr - 1]);
      }
    }

    method ForwardTo(n: nat, ghost trail: seq<Pos>, ghost s: Pos, ghost k: int)
      requires Valid() && Awaiting(T(), trail, moves, n, s, k)
      requires movenr < n && Cur() == trail[movenr] && (movenr == 0 ==> moves[1].point >= PASS)
      modifies this`movenr, this`moves, this`hash, this`caps, this`uflog, this`root, this`kostat, board, uf
      ensures Pending(trail) && movenr == n && Cur() == s && kostat == k
      ensures KeptBut(old(moves), moves, n) && moves[n].point == old(moves[n].point)
      decreases 5
    {
      hide Move, Sound, History, Bordered;
      ghost var ms, j := moves, movenr;
      while movenr < n
        invariant j <= movenr <= n && Valid() && Cur() == (trail + [s])[movenr]
        invariant KeptBut(ms, moves, n) && moves[n].point == ms[n].point
        invariant Awaiting(T(), trail, moves, n, s, k)
        invariant movenr == n ==> kostat == k
      {
        ForwardableAt(T(), trail, ms, n, s, k, movenr, moves);
        Forward();
      }
    }

    /** Go back to the position after move i, compare boards, and play forward
        to the pending move again. */
    method Revisit(i: nat, ghost trail: seq<Pos>) returns (same: bool)
      requires Pending(trail) && i + 2 <= movenr && (i == 0 ==> moves[1].point >= PASS)
      modifies this`movenr, this`moves, this`hash, this`caps, this`uflog, this`root, this`kostat, board, uf
      ensures Pending(trail) && movenr == old(movenr) && Cur() == old(Cur())
      ensures KeptBut(old(moves), moves, movenr) && moves[movenr].point == old(moves[movenr].point)
      ensures same <==> trail[i].board == board[..]
      decreases 6
    {
      var curboard := board[..];
      var n := movenr;
      ghost var s, k := Cur(), kostat;
      BackTo(i, trail);
      same := curboard == board[..];
      ForwardTo(n, trail, s, k);
    }

    /** Whether the pending move repeats the position after move i; boards are
        compared only if the hashes agree. */
    method RepeatsAt(i: nat, ghost trail: seq<Pos>) returns (same: bool)
      requires Pending(trail) && i + 2 <= movenr && movenr % 2 == i % 2 && NoWrap(moves, movenr, hash)
      modifies this`movenr, this`moves, this`hash, this`caps, this`uflog, this`root, this`kostat, board, uf
      ensures Pending(trail) && movenr == old(movenr) && Cur() == old(Cur()) && NoWrap(moves, movenr, hash)
      ensures KeptBut(old(moves), moves, movenr) && moves[movenr].point == old(moves[movenr].point)
      ensures same <==> trail[i].board == board[..]
      decreases 7
    {
      hide Move, Sound;
      HashTells(T(), trail, moves, movenr, Cur(), kostat, i);
      same := false;
      if moves[i].hash == hash {
        ghost var ms := moves;
        same := Revisit(i, trail);
        NoWrapSame(ms, moves, movenr, hash);
      }
    }

    /** Whether the pending move repeats an earlier position of the same player. */
    method Superko(ghost trail: seq<Pos>) returns (found: bool)
      requires Pending(trail) && NoWrap(moves, movenr, hash)
      modifies this`movenr, this`moves, this`hash, this`caps, this`uflog, this`root, this`kostat, board, uf
      ensures Pending(trail) && movenr == old(movenr) && Cur() == old(Cur())
      ensures KeptBut(old(moves), moves, movenr) && moves[movenr].point == old(moves[movenr].point)
      ensures found <==> Repeats(trail, movenr, board[..])
      decreases 8
    {
      hide Move, Sound, History, UndoOk, ForwardOk, Repeats, NoWrap;
      ghost var s, n, ms := Cur(), movenr, moves;
      ghost var m: int := 1;
      var i: int := movenr - 2;
      while i >= 0
        invariant i + 2 * m == n && m > 0
        invariant Pending(trail) && movenr == n && Cur() == s && NoWrap(moves, n, hash)
        invariant KeptBut(ms, moves, n) && moves[n].point == ms[n].point
        invariant NoneAfter(trail, n, i, s.board)
      {
        EvenGap(n, m);
        var same := RepeatsAt(i, trail);
        if same {
          RepeatFound(trail, n, i, s.board);
          return true;
        }
        NoneBefore(trail, n, i, s.board);
        i := i - 2;
        m := m + 1;
      }
      NoneAtAll(trail, n, i, s.board);
      return false;
    }

    /** mink_play. A move that is taken back leaves the hash that the history
        recorded, and a position in order exactly if that was its hash. To look for
        repetition the history must be known. */
    method Play(p: nat, ko: bool, ghost trail: seq<Pos>) returns (ok: bool)
      requires Valid() && p < board.Length && (ko ==> Synced(trail)) && Playable(p, ko)
      modifies this`movenr, this`moves, this`hash, this`caps, this`uflog, this`root, this`kostat, board, uf
      ensures ok <==> old(Accepts(T(), trail, Cur(), moves[movenr].ko, p, movenr, ko))
      ensures ok <==> old(
        && board[p] == EMPTY && p != moves[movenr].ko
        && !(rules == RULES_ING && movenr % 2 == 1 && movenr < 2 * handicap)
        && var b := PlayOn(board[..], width + 1, p, if movenr % 2 == 0 then BLACK else WHITE);
          && !(rules == RULES_NET && b[p] == EMPTY)
          && !(ko && exists i {:trigger trail[i]} ::
                 0 <= i < |trail| && i <= movenr - 1 && (movenr + 1 - i) % 2 == 0 && trail[i].board == b))
      ensures ok ==> board[..] == old(PlayOn(board[..], width + 1, p, if movenr % 2 == 0 then BLACK else WHITE))
      ensures !ok ==> Cur() == old(Cur().(hash := RefusedHash(p)))
      ensures !ok ==> movenr == old(movenr) < |moves| && moves[..movenr + 1] == old(moves[..movenr + 1])
      ensures ok ==> var o := Move(E(), old(Cur()), p, ColourOf(movenr));
        && Cur() == o.look.pos && kostat == o.look.kostat
        && movenr == old(movenr) + 1
        && moves == Put(old(moves), movenr, Entered(p, o))
      ensures !old(Open(T(), board[..], moves[movenr].ko, p, movenr)) ==> moves == old(moves)
      ensures Valid() <==> ok || old(RefusedHash(p) == hash)
      ensures old(Synced(trail)) ==> Synced(if ok then trail + [Cur()] else trail)
    {
      hide Move, Sound, Repeats, Step, NoWrap, Bordered, PlayOn, Accepts, Open, Synced;
      AcceptsByRules(T(), trail, Cur(), moves[movenr].ko, p, movenr, ko);
      PlayedByRules(T(), Cur(), p, movenr);
      ok := PlayAt(p, ko, trail);
    }

    /** mink_pass: tells how many passes in a row the history now ends with. */
    method Pass(ghost trail: seq<Pos>) returns (k: nat)
      requires Valid()
      modifies this`movenr, this`moves
      ensures Valid() && movenr == old(movenr) + 1 && Cur() == old(Cur())
      ensures moves == Put(old(moves), movenr, moves[movenr]) && moves[movenr].point == PASS
      ensures moves[movenr].ko == 0 && moves[movenr].hash == old(moves[movenr].hash)
      ensures 0 < k <= movenr && moves[movenr - k].point != PASS
      ensures forall i :: movenr - k < i <= movenr ==> moves[i].point == PASS
      ensures old(Synced(trail)) ==> Synced(trail + [Cur()])
    {
      hide Sound, Step, Bordered, History;
      movenr := movenr + 1;
      var i := movenr;
      var mv := if i < |moves| then moves[i] else FIRST;
      moves := Put(moves, i, mv.(point := PASS, ko := 0, hash := moves[i - 1].hash));
      i := i - 1;
      while moves[i].point == PASS
        invariant 0 <= i < movenr
        invariant forall j :: i < j <= movenr ==> moves[j].point == PASS
        decreases i
      {
        i := i - 1;
      }
      k := movenr - i;
      if old(Synced(trail)) {
        HistoryLength(T(), trail, old(moves), old(movenr));
        PassExtends(T(), trail, old(moves), old(movenr), moves[movenr]);
      }
    }

    /** mink_back in a game whose history is known. Going back over a handicap
        entry starts the game anew. */
    method Back(ghost trail: seq<Pos>) returns (ok: bool)
      requires Synced(trail)
      modifies this`movenr, this`hash, this`caps, this`uflog, board, uf
      ensures ok <==> old(movenr) > 0
      ensures !ok ==> Synced(trail)
      ensures ok && moves[old(movenr)].point >= PASS ==> movenr == old(movenr) - 1 && Synced(trail[..old(movenr)])
      ensures ok && moves[old(movenr)].point < PASS ==> movenr == 0 && Synced([Cur()])
    {
      hide Sound, Move, Bordered;
      ghost var n := movenr;
      if n > 0 {
        StepUndoes(T(), trail, moves, n, n);
        HistoryShrinks(T(), trail, moves, n, moves);
      }
      ok := Undo(trail[if n > 0 then n - 1 else 0]);
    }

    /** mink_removedead: take the group at p off the board; the history is not told. */
    method RemoveDead(p: nat) returns (ok: bool)
      requires Valid() && p < board.Length
      modifies this`hash, this`caps, this`uflog, board, uf
      ensures Valid()
      ensures ok <==> old(IsStone(board[p]))
      ensures ok ==> board[..] == Repaint(old(board[..]), width + 1, p, EMPTY) && Balanced(old(Cur()), Cur())
      ensures !ok ==> Cur() == old(Cur())
    {
      ghost var s := Cur();
      assert IsStone(board[p]) ==> Grounded(s, Other(board[p])) by {
        SoundGrounds(E(), s);
      }
      if IsStone(board[p]) {
        RemovalSound(E(), s, p);
        RemovalBordered(board[..], width, height, p);
      }
      hide GoEngine.Capture, Sound, Bordered;
      var n := Capture(p, board[p]);
      ok := n != 0;
    }

    // Handicap and replay ----------------------------------------------------------------

    ghost predicate HandicapFits(n: nat) {
      rules == RULES_NET && n > 0 ==>
        && width <= MAX_WIDTH
        && (n <= StarCount(width) ==> StarsFit(StartBoard(width, height), width + 1, HandicapPoints(width, n)))
    }

    /** mink_sethcap: under RULES_NET the handicap becomes the first entry of the
        history; otherwise, or when there are not enough stars, it is only noted. */
    method SetHandicap(n: nat, ghost trail: seq<Pos>) returns (ok: bool)
      requires Synced(trail) && (movenr == 0 ==> HandicapFits(n))
      modifies this`handicap, this`movenr, this`moves, this`hash, this`caps, this`uflog, this`root, this`kostat
      modifies board, uf
      ensures handicap == if old(movenr) == 0 && n > 0 then n else old(handicap)
      ensures ok <==> old(movenr) == 0 && n > 0 && (rules == RULES_NET ==> n <= StarCount(width))
      ensures ok && rules == RULES_NET ==>
        && movenr == 1 && Synced(trail + [Cur()])
        && moves == Put(old(moves), 1, moves[1]) && moves[1].point == -1 - n
        && Starred(T(), board[..], n) && Count(board[..], BLACK) == n && Count(board[..], WHITE) == 0
      ensures !(ok && rules == RULES_NET) ==>
        Synced(trail) && movenr == old(movenr) && moves == old(moves) && Cur() == old(Cur())
    {
      hide Bordered;
      if movenr != 0 || n == 0 {
        return false;
      }
      handicap := n;
      assert Synced(trail);
      if rules == RULES_NET {
        if n > StarCount(width) {
          return false;
        }
        PlaceHandicap(n, trail);
      }
      return true;
    }

    /** One handicap stone. */
    method SetStar(p: nat, ghost m: MoveRec)
      requires Valid() && movenr == 0 && rules == RULES_NET && p < board.Length
      requires StarsFit(T().start, E().v, T().stars) && SettingUp(T(), Cur()) && p in T().stars
      modifies this`movenr, this`moves, this`hash, this`caps, this`uflog, this`root, this`kostat, board, uf
      ensures Valid() && movenr == 0 && Cur() == PlaceStar(T(), old(Cur()), m, p).0
      ensures moves ==
        if old(board[p]) == EMPTY then Put(old(moves), 1, PlaceStar(T(), old(Cur()), m, p).1) else old(moves)
    {
      hide Move, Sound, Repeats, Bordered, StarsFit, SettingUp, PlaceStar, Standing, Open;
      StarAccepted(T(), Cur(), m, p);
      var _ := PlayAt(p, false, []);
      movenr := 0;
    }

    /** A black stone on each handicap point, always played as the first move. */
    method PlaceStones(n: nat, ghost m: MoveRec)
      requires Valid() && movenr == 0 && rules == RULES_NET && handicap == n && 0 < n <= StarCount(width)
      requires StarsFit(T().start, E().v, T().stars) && SettingUp(T(), Cur()) && board[..] == T().start
      modifies this`movenr, this`moves, this`hash, this`caps, this`uflog, this`root, this`kostat, board, uf
      ensures Valid() && movenr == 0 && Cur() == PlaceStars(T(), old(Cur()), m, n).0
      ensures moves == Put(old(moves), 1, PlaceStars(T(), old(Cur()), m, n).1)
    {
      ghost var t, s, ms := T(), Cur(), moves;
      hide Sound, Move, StarsFit, PlaceStar, PlaceStars, Stars, StarPoint, Bordered;
      var max := StarCount(width);
      var star, i := 0, n;
      while i > 0
        invariant 0 <= i <= n && (i > 0 ==> star == n - i)
        invariant Valid() && movenr == 0
        invariant i == n ==> Cur() == s && moves == ms
        invariant i < n ==> Cur() == PlaceStars(t, s, m, n - i).0
        invariant i < n ==> moves == Put(ms, 1, PlaceStars(t, s, m, n - i).1)
      {
        if max == 9 && (n == 5 || n == 7) && i == 1 {
          star := 8;
        }
        var p := StarPoint(width, star);
        star := star + 1;
        ghost var r := PlaceStars(t, s, m, n - i);
        StarsNext(t, s, m, n - i);
        StarIn(t, n - i);
        SetStar(p, r.1);
        i := i - 1;
      }
    }

    /** The handicap stones, and the entry that stands for them. */
    method PlaceHandicap(n: nat, ghost trail: seq<Pos>)
      requires Synced(trail) && movenr == 0 && 0 < n <= StarCount(width) && handicap == n && rules == RULES_NET
      requires StarsFit(T().start, E().v, T().stars)
      modifies this`movenr, this`moves, this`hash, this`caps, this`uflog, this`root, this`kostat, board, uf
      ensures movenr == 1 && Synced(trail + [Cur()])
      ensures moves == Put(old(moves), 1, moves[1]) && moves[1].point == -1 - n
      ensures Starred(T(), board[..], n) && Count(board[..], BLACK) == n && Count(board[..], WHITE) == 0
    {
      hide Count, Move, PlaceStar, Stars, StarPoint, StarsFit, Standing, Tallied, Bordered;
      ghost var s, ms := Cur(), moves;
      ghost var m := if |moves| > 1 then moves[1] else FIRST;
      PlaceStones(n, m);
      moves := moves[1 := moves[1].(point := -1 - n)];
      movenr := 1;
      PutTwice(ms, 1, PlaceStars(T(), s, m, n).1, moves[1]);
      HandicapExtends(T(), trail, ms, m);
      StarsPlaced(T(), s, m, n);
      StonesCounted(T(), board[..], width, n);
    }

    /** mink_replay: start anew and play the recorded moves again, whatever was
        removed from the board meanwhile. Every move is accepted again, and the
        position looks as it did after the last one. */
    method Replay(ghost trail: seq<Pos>) returns (ghost now: seq<Pos>)
      requires Valid() && History(T(), trail, moves, movenr)
      modifies this`handicap, this`movenr, this`moves, this`hash, this`caps, this`uflog, this`root, this`kostat
      modifies board, uf
      ensures movenr == old(movenr) && moves == old(moves) && handicap == old(handicap)
      ensures Synced(now) && SameView(Cur(), trail[movenr])
      ensures board[..] == trail[movenr].board && hash == trail[movenr].hash && caps == trail[movenr].caps
    {
      hide Move, Step, Standing, Tallied, Stars, Bordered;
      var n := movenr;
      StartAnew();
      RetraceStart(T(), trail, moves, n, Cur());
      now := [Cur()];
      if n > 0 && moves[1].point < -1 {
        now := ReplayHandicap(n, trail);
      }
      now := ReplayMoves(n, trail, now);
    }

    method ReplayMoves(n: nat, ghost trail: seq<Pos>, ghost first: seq<Pos>) returns (ghost now: seq<Pos>)
      requires Valid() && History(T(), trail, moves, n) && movenr <= n && (movenr == 0 < n ==> moves[1].point >= PASS)
      requires Retraced(T(), trail, first, moves, movenr) && Cur() == first[movenr]
      modifies this`movenr, this`moves, this`hash, this`caps, this`uflog, this`root, this`kostat, board, uf
      ensures movenr == n && moves == old(moves)
      ensures Valid() && Retraced(T(), trail, now, moves, n) && Cur() == now[n]
    {
      hide Move, Step, Sound, Bordered, ForwardOk;
      ghost var j := movenr;
      now := first;
      while movenr < n
        invariant j <= movenr <= n && moves == old(moves)
        invariant Valid() && Retraced(T(), trail, now, moves, movenr) && Cur() == now[movenr]
      {
        StepUndoes(T(), trail, moves, n, movenr + 1);
        if moves[movenr + 1].point == PASS {
          RetracePass(T(), trail, moves, n, now, movenr);
        } else {
          RetraceMove(T(), trail, moves, n, now, movenr);
        }
        Forward();
        now := now + [Cur()];
      }
    }

    method StartAnew()
      requires Apart() && board.Length == uf.Length == BoardSize(width, height)
      requires |moves| > 0 && moves[0].point == 0 && moves[0].ko == 0 && moves[0].hash == {}
      modifies this`movenr, this`uflog, this`hash, this`caps, board
      ensures movenr == 0 && Synced([Cur()])
    {
      hide Bordered;
      StartGame();
      StartSound(E(), Cur(), width, height);
      StartBordered(width, height);
    }

    method ReplayHandicap(n: nat, ghost trail: seq<Pos>) returns (ghost now: seq<Pos>)
      requires Synced([Cur()]) && movenr == 0 && 0 < n && History(T(), trail, moves, n) && moves[1].point < PASS
      modifies this`handicap, this`movenr, this`moves, this`hash, this`caps, this`uflog, this`root, this`kostat
      modifies board, uf
      ensures handicap == old(handicap) && moves == old(moves) && movenr == 1
      ensures Valid() && Retraced(T(), trail, now, moves, 1) && Cur() == now[1]
    {
      hide Move, Standing, Tallied, Stars, StarsFit, Step, Starting, StarPoint, Framed, Coloured, Bordered;
      ghost var s, ms := Cur(), moves;
      HandicapKnown(T(), trail, moves, n);
      StarsWithinTable(width);
      var _ := SetHandicap(-1 - moves[1].point, [s]);
      now := [s, Cur()];
      assert [s] + [Cur()] == now;
      RetraceHandicap(T(), trail, ms, n, s, Cur(), moves);
    }

    /** mink_initgame. */
    constructor (width: nat, height: nat, rules: int, zob: (int, int) -> Hash)
      ensures fresh(board) && fresh(uf) && board != uf
      ensures this.width == width && this.height == height && this.rules == rules && this.zob == zob && handicap == 0
      ensures movenr == 0 && Synced([Cur()])
    {
      this.width, this.height, this.rules, this.zob := width, height, rules, zob;
      board := new int[BoardSize(width, height)](_ => 0);
      uf := new int[BoardSize(width, height)](_ => 0);
      moves := [FIRST];
      uflog, hash, caps := [], {}, [0, 0, 0, 0];
      movenr, root, kostat, handicap := 0, 0, 0, 0;
      new;
      StartAnew();
    }

    // Counting the score ---------------------------------------------------------------------

    method FindOwner(p: nat) returns (own: int)
      requires Markable(board[..], width + 1) && p < board.Length
      modifies board
      ensures (board[..], own) == GoScore.FindOwner(old(board[..]), width + 1, p)
      decreases Count(board[..], EMPTY), 0
    {
      if board[p] == EDGE || board[p] == MARKED {
        return 0;
      }
      if board[p] != EMPTY {
        return board[p];
      }
      CountUpdate(board[..], p, MARKED, EMPTY);
      board[p] := MARKED;
      own := FindOwners(p);
    }

    method FindOwners(p: nat) returns (own: int)
      requires Markable(board[..], width + 1) && 0 < width && width + 1 <= p < board.Length - (width + 1)
      modifies board
      ensures (board[..], own) == FindAround(old(board[..]), width + 1, p, 0)
      decreases Count(board[..], EMPTY), 1
    {
      hide GoScore.FindOwner, Count, Or;
      FindUnfold(board[..], width + 1, p);
      var a := FindOwner(p - (width + 1));
      var b := FindOwner(p - 1);
      var c := FindOwner(p + 1);
      var d := FindOwner(p + (width + 1));
      own := Or(Or(Or(a, b), c), d);
    }

    method SetOwner(p: nat, c: int)
      requires Markable(board[..], width + 1) && p < board.Length && 0 < c < 4
      modifies board
      ensures board[..] == GoScore.SetOwner(old(board[..]), width + 1, p, c)
      decreases Count(board[..], MARKED), 0
    {
      if board[p] == MARKED {
        CountUpdate(board[..], p, MARKED + c, MARKED);
        board[p] := MARKED + c;
        SetOwners(p, c);
      }
    }

    method SetOwners(p: nat, c: int)
      requires Markable(board[..], width + 1) && 0 < width && width + 1 <= p < board.Length - (width + 1) && 0 < c < 4
      modifies board
      ensures board[..] == SetAround(old(board[..]), width + 1, p, c, 0)
      decreases Count(board[..], MARKED), 1
    {
      hide GoScore.SetOwner, Count;
      SetUnfold(board[..], width + 1, p, c);
      SetOwner(p - (width + 1), c);
      SetOwner(p - 1, c);
      SetOwner(p + 1, c);
      SetOwner(p + (width + 1), c);
    }

    /** Mark the empty region of p, unless that was done before. */
    method MarkRegion(p: nat, ghost b: Board, ghost V: set<int>) returns (ghost V': set<int>)
      requires Inner(b, width + 1) && Regions(b, width + 1, V)
      requires board[..] == Scored(b, width + 1, V) && p < board.Length
      modifies board
      ensures V <= V' && Regions(b, width + 1, V') && board[..] == Scored(b, width + 1, V')
      ensures b[p] == EMPTY ==> p in V'
    {
      V' := V;
      if board[p] == EMPTY {
        ScoreNext(b, width + 1, V, p);
        V' := V + Group(b, width + 1, p);
        hide GoScore.FindOwner, GoScore.SetOwner, Group, Owner;
        var own := FindOwner(p);
        if own != 0 {
          SetOwner(p, own);
        }
      }
    }

    /** Take the marks off again. */
    method Unmark(ghost b: Board, ghost V: set<int>)
      requires Inner(b, width + 1) && Regions(b, width + 1, V) && board[..] == Scored(b, width + 1, V)
      modifies board
      ensures board[..] == b
    {
      hide Owner, Closed;
      var p := width + 1 + 1;
      while p < board.Length - (width + 1)
        invariant p >= width + 2
        invariant forall x {:trigger board[x]} :: 0 <= x < board.Length ==>
          board[x] == if x < p then b[x] else Scored(b, width + 1, V)[x]
      {
        if board[p] >= MARKED {
          board[p] := EMPTY;
        }
        p := p + 1;
      }
    }

    /** The loops of mink_countscore. */
    method CountPoints() returns (wt: nat, bt: nat, wo: nat, bo: nat)
      requires Inner(board[..], width + 1)
      modifies board
      ensures board[..] == old(board[..])
      ensures wo == Count(board[..], WHITE) && bo == Count(board[..], BLACK)
      ensures wt == |Territory(board[..], width + 1, WHITE)| && bt == |Territory(board[..], width + 1, BLACK)|
    {
      hide Owner, Territory, Points, Below, Count, Inner, Scored, Regions, Tallies, Group, Closed;
      ghost var b, v := board[..], width + 1;
      ghost var V: set<int> := {};
      wt, bt, wo, bo := 0, 0, 0, 0;
      ScoreStarts(b, v);
      var p := width + 1 + 1;
      while p < board.Length - (width + 1)
        invariant p >= v + 1 && Regions(b, v, V) && board[..] == Scored(b, v, V)
        invariant Tallies(b, v, p, bo, wo, bt, wt)
      {
        if board[p] != EDGE {
          V := MarkRegion(p, b, V);
        }
        PointCounts(b, v, V, p, bo, wo, bt, wt);
        if board[p] == BLACK {
          bo := bo + 1;
        } else if board[p] == MARKED + BLACK {
          bt := bt + 1;
        } else if board[p] == WHITE {
          wo := wo + 1;
        } else if board[p] == MARKED + WHITE {
          wt := wt + 1;
        }
        p := p + 1;
      }
      Unmark(b, V);
      ScoreEnds(b, v, p, bo, wo, bt, wt);
    }

    /** mink_countscore: occupied points and territory of both colours. With the
        neutral points they make up the board, which is left as it was. */
    method CountScore() returns (wt: nat, bt: nat, wo: nat, bo: nat)
      requires Valid()
      modifies board
      ensures Valid() && Cur() == old(Cur())
      ensures wo == Count(board[..], WHITE) && bo == Count(board[..], BLACK)
      ensures wt == |Territory(board[..], width + 1, WHITE)| && bt == |Territory(board[..], width + 1, BLACK)|
      ensures wt + bt + wo + bo + |Neutral(board[..], width + 1)| == width * height
    {
      assert Coloured(board[..]);
      hide Sound, Territory, Neutral, Count, Bordered, Inner, Coloured;
      BorderedInner(board[..], width, height);
      ScoreCoversBoard(board[..], width, height);
      wt, bt, wo, bo := CountPoints();
    }
  }

  lemma EvenGap(n: int, m: int)
    ensures (n - 2 * m) % 2 == n % 2
  {
  }

  lemma NoWrapSame(moves: seq<MoveRec>, moves': seq<MoveRec>, n: nat, h: Hash)
    requires NoWrap(moves, n, h) && KeptBut(moves, moves', n)
    ensures NoWrap(moves', n, h)
  {
    if n > 1 {
      assert moves'[1] == moves'[..n][1] == moves[..n][1];
    }
  }

  lemma MarkBefore(log: seq<Entry>)
    requires HasMark(log) && log[|log| - 1].index != 0
    ensures HasMark(log[..|log| - 1])
  {
    var i :| 0 <= i < |log| && log[i] == MARK;
    assert log[..|log| - 1][i] == MARK;
  }

  lemma {:induction false} FillKeepsLog(e: Env, s: Pos, p: int, c: int)
    requires Shape(e, s) && 0 <= p < |s.board| && IsStone(c) && Tallied(e, s)
    ensures var f := GoEngine.Fill(e, s, p, c); f.log == s.log && f.uf == s.uf && Tallied(e, f)
  {
    FillTallied(e, s, p, c);
  }

  lemma {:induction false} FilledLog(e: Env, s: Pos, p: int, c: int, taken: seq<bool>, self: bool)
    requires Sound(e, s) && 2 <= e.v <= p < |s.board| - e.v && IsStone(c) && |taken| == 4
    ensures var f := if self then GoEngine.Fill(e, s, p, c) else Refill(e, s, p, Other(c), taken, 0);
            f.log == s.log && f.uf == s.uf
  {
    if self {
      FillKeepsLog(e, s, p, c);
    } else {
      RefilledLog(e, s, p, Other(c), taken, 0);
    }
  }

  lemma {:induction false} RefilledLog(e: Env, s: Pos, p: int, t: int, taken: seq<bool>, d: nat)
    requires Shape(e, s) && Tallied(e, s) && 2 <= e.v <= p < |s.board| - e.v && IsStone(t) && |taken| == 4 && d <= 4
    ensures var f := Refill(e, s, p, t, taken, d); f.log == s.log && f.uf == s.uf
    decreases 4 - d
  {
    if d < 4 {
      var n := Nbr(e.v, p, d);
      if taken[d] {
        FillKeepsLog(e, s, n, t);
      }
      RefilledLog(e, if taken[d] then GoEngine.Fill(e, s, n, t) else s, p, t, taken, d + 1);
    }
  }

  lemma {:induction false} LooksNext(e: Env, g: Look, p: int, c: int, d: nat)
    requires d < 4 && LooksOn(e, g, p, c, d)
    ensures var a := GoEngine.Neighbour(e, g, Nbr(e.v, p, d), c);
            && LooksOn(e, a.0, p, c, d + 1)
            && AllGrounded(g.pos) && AllGrounded(a.0.pos)
            && LookShape(e, g)
            && LookAround(e, g, p, c, d).0 == LookAround(e, a.0, p, c, d + 1).0
            && LookAround(e, g, p, c, d).1 == [a.1] + LookAround(e, a.0, p, c, d + 1).1
  {
    assert LooksOn(e, GoEngine.Neighbour(e, g, Nbr(e.v, p, d), c).0, p, c, d + 1);
  }

  lemma FillUnfold(e: Env, s0: Pos, s1: Pos, s2: Pos, s3: Pos, s4: Pos, p: int, c: int)
    requires Shape(e, s0) && 2 <= e.v <= p < |s0.board| - e.v && IsStone(c)
    requires s1 == GoEngine.Fill(e, s0, p - e.v, c) && s2 == GoEngine.Fill(e, s1, p - 1, c)
    requires s3 == GoEngine.Fill(e, s2, p + 1, c) && s4 == GoEngine.Fill(e, s3, p + e.v, c)
    ensures FillAround(e, s0, p, c, 0) == s4
  {
    assert FillAround(e, s0, p, c, 0) == FillAround(e, s1, p, c, 1);
    assert FillAround(e, s1, p, c, 1) == FillAround(e, s2, p, c, 2);
    assert FillAround(e, s2, p, c, 2) == FillAround(e, s3, p, c, 3);
    assert FillAround(e, s3, p, c, 3) == FillAround(e, s4, p, c, 4);
  }

  lemma {:induction false} CaptureUnfold(e: Env, s: Pos, p: int, c: int)
    requires Shape(e, s) && 2 <= e.v <= p < |s.board| - e.v
    ensures var a := GoEngine.Capture(e, s, p - e.v, c); var b := GoEngine.Capture(e, a.0, p - 1, c);
            var d := GoEngine.Capture(e, b.0, p + 1, c); var f := GoEngine.Capture(e, d.0, p + e.v, c);
            && CaptureAround(e, s, p, c, 0) == (f.0, a.1 + b.1 + d.1 + f.1)
            && Count(b.0.board, c) <= Count(s.board, c)
  {
    var a := GoEngine.Capture(e, s, p - e.v, c);
    var b := GoEngine.Capture(e, a.0, p - 1, c);
    var d := GoEngine.Capture(e, b.0, p + 1, c);
    assert CaptureAround(e, d.0, p, c, 3).1 == GoEngine.Capture(e, d.0, p + e.v, c).1;
    assert CaptureAround(e, b.0, p, c, 2).1 == d.1 + CaptureAround(e, d.0, p, c, 3).1;
    assert CaptureAround(e, a.0, p, c, 1).1 == b.1 + CaptureAround(e, b.0, p, c, 2).1;
  }

  lemma FindUnfold(b: Board, v: nat, p: int)
    requires Markable(b, v) && 2 <= v <= p < |b| - v
    ensures var r0 := GoScore.FindOwner(b, v, p - v); var r1 := GoScore.FindOwner(r0.0, v, p - 1);
            var r2 := GoScore.FindOwner(r1.0, v, p + 1); var r3 := GoScore.FindOwner(r2.0, v, p + v);
            && FindAround(b, v, p, 0) == (r3.0, Or(Or(Or(r0.1, r1.1), r2.1), r3.1))
            && Count(r2.0, EMPTY) <= Count(r1.0, EMPTY) <= Count(r0.0, EMPTY) <= Count(b, EMPTY)
  {
    hide GoScore.FindOwner, Or;
    var r0 := GoScore.FindOwner(b, v, p - v);
    var r1 := GoScore.FindOwner(r0.0, v, p - 1);
    var r2 := GoScore.FindOwner(r1.0, v, p + 1);
    var r3 := GoScore.FindOwner(r2.0, v, p + v);
    assert FindAround(r3.0, v, p, 4) == (r3.0, 0);
    assert FindAround(r2.0, v, p, 3) == (r3.0, Or(r3.1, 0));
    assert FindAround(r1.0, v, p, 2) == (r3.0, Or(r2.1, Or(r3.1, 0)));
    assert FindAround(r0.0, v, p, 1) == (r3.0, Or(r1.1, Or(r2.1, Or(r3.1, 0))));
    OrFour(r0.1, r1.1, r2.1, r3.1);
  }

  lemma SetUnfold(b: Board, v: nat, p: int, c: int)
    requires Markable(b, v) && 2 <= v <= p < |b| - v && 0 < c < 4
    ensures var r0 := GoScore.SetOwner(b, v, p - v, c); var r1 := GoScore.SetOwner(r0, v, p - 1, c);
            var r2 := GoScore.SetOwner(r1, v, p + 1, c);
            && SetAround(b, v, p, c, 0) == GoScore.SetOwner(r2, v, p + v, c)
            && Count(r2, MARKED) <= Count(r1, MARKED) <= Count(r0, MARKED) <= Count(b, MARKED)
  {
    hide GoScore.SetOwner;
    var r0 := GoScore.SetOwner(b, v, p - v, c);
    var r1 := GoScore.SetOwner(r0, v, p - 1, c);
    var r2 := GoScore.SetOwner(r1, v, p + 1, c);
    assert SetAround(r2, v, p, c, 3) == GoScore.SetOwner(r2, v, p + v, c);
    assert SetAround(r1, v, p, c, 2) == SetAround(r2, v, p, c, 3);
    assert SetAround(r0, v, p, c, 1) == SetAround(r1, v, p, c, 2);
  }

  // Following uf ------------------------------------------------------------------

  lemma {:induction false} WalkSame(u: seq<int>, u': seq<int>, p: int, n: nat)
    requires |u'| == |u| && 0 <= p < |u|
    requires forall i {:trigger u'[i]} :: 0 <= i < |u| ==> if u[i] <= 0 then u'[i] <= 0 else u'[i] == u[i]
    ensures Walk(u', p, n) == Walk(u, p, n) && (AtRoot(u', p) <==> AtRoot(u, p))
    decreases n
  {
    if n > 0 && !AtRoot(u, p) {
      WalkSame(u, u', u[p], n - 1);
    }
  }

  lemma GroundedStays(s: Pos, t: Pos, c: int)
    requires |s.uf| == |s.board| == |t.uf| == |t.board| && Grounded(s, c)
    requires forall q {:trigger t.board[q]} :: 0 <= q < |s.board| && t.board[q] == c ==> s.board[q] == c
    requires forall i {:trigger t.uf[i]} :: 0 <= i < |s.uf| ==>
      if s.uf[i] <= 0 then t.uf[i] <= 0 else t.uf[i] == s.uf[i]
    ensures Grounded(t, c)
  {
    forall p | 0 <= p < |s.uf| && t.board[p] == c
      ensures Ends(t.uf, p)
    {
      assert Ends(s.uf, p);
      var n: nat :| s.uf[Walk(s.uf, p, n)] <= 0;
      WalkSame(s.uf, t.uf, p, n);
      WalkSame(s.uf, t.uf, Walk(s.uf, p, n), 0);
    }
  }

  /** A capture changes root values only, and keeps them at most zero. */
  ghost predicate RootsOnly(s: Pos, t: Pos, c: int) {
    && |s.uf| == |s.board| == |t.uf| == |t.board|
    && (forall q {:trigger t.board[q]} :: 0 <= q < |s.board| && t.board[q] == c ==> s.board[q] == c)
    && (forall i {:trigger t.uf[i]} :: 0 <= i < |s.uf| ==> if s.uf[i] <= 0 then t.uf[i] <= 0 else t.uf[i] == s.uf[i])
  }

  lemma {:induction false} CaptureRootsOnly(e: Env, s: Pos, p: int, c: int)
    requires Shape(e, s) && 0 <= p < |s.board| && IsStone(c) && Grounded(s, Other(c))
    ensures RootsOnly(s, GoEngine.Capture(e, s, p, c).0, Other(c))
    decreases Count(s.board, c), 0
  {
    if s.board[p] == c {
      var s0 := Paint(e, s, p, c, EMPTY, 1);
      CountUpdate(s.board, p, EMPTY, c);
      GroundedStays(s, s0, Other(c));
      CaptureAroundRootsOnly(e, s0, p, c, 0);
      assert GoEngine.Capture(e, s, p, c).0 == CaptureAround(e, s0, p, c, 0).0;
    } else if s.board[p] == Other(c) {
      assert Ends(s.uf, p);
      var n: nat :| s.uf[Walk(s.uf, p, n)] <= 0;
      RootIs(s.uf, p, n);
    }
  }

  lemma {:induction false} CaptureAroundRootsOnly(e: Env, s: Pos, p: int, c: int, d: nat)
    requires Shape(e, s) && 2 <= e.v <= p < |s.board| - e.v && d <= 4 && IsStone(c) && Grounded(s, Other(c))
    ensures RootsOnly(s, CaptureAround(e, s, p, c, d).0, Other(c))
    decreases Count(s.board, c), 5 - d
  {
    if d < 4 {
      var n := Nbr(e.v, p, d);
      var a := GoEngine.Capture(e, s, n, c);
      var r := CaptureAround(e, a.0, p, c, d + 1);
      assert CaptureAround(e, s, p, c, d).0 == r.0;
      CaptureRootsOnly(e, s, n, c);
      GroundedStays(s, a.0, Other(c));
      CaptureAroundRootsOnly(e, a.0, p, c, d + 1);
    }
  }

  lemma CaptureGrounded(e: Env, s: Pos, p: int, c: int)
    requires Shape(e, s) && 0 <= p < |s.board| && IsStone(c) && Grounded(s, Other(c))
    ensures Grounded(GoEngine.Capture(e, s, p, c).0, Other(c))
  {
    CaptureRootsOnly(e, s, p, c);
    GroundedStays(s, GoEngine.Capture(e, s, p, c).0, Other(c));
  }
}
