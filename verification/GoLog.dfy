/** The undo log: whatever was logged since a mark is taken back by unwinding. */
module GoLog {
  import opened GoBoard
  import opened GoEngine
  import opened GoForest

  /** Undo the entries of the log from the end down to the first n. */
  function Rewind(uf: seq<int>, log: seq<Entry>, n: nat): (r: seq<int>)
    ensures |r| == |uf|
    decreases |log|
  {
    if |log| <= n then uf
    else
      var e := log[|log| - 1];
      Rewind(if 0 <= e.index < |uf| then uf[e.index := e.value] else uf, log[..|log| - 1], n)
  }

  /** From s to t only changes were logged that rewinding takes back. */
  ghost predicate Logged(s: Pos, t: Pos) {
    && |s.log| <= |t.log|
    && t.log[..|s.log|] == s.log
    && (forall i {:trigger t.log[i]} :: |s.log| <= i < |t.log| ==> 0 < t.log[i].index < |t.uf|)
    && Rewind(t.uf, t.log, |s.log|) == s.uf
  }

  /** Every entry of the log is a mark or names a point. */
  ghost predicate LogFits(s: Pos) {
    forall i {:trigger s.log[i]} :: 0 <= i < |s.log| ==> 0 <= s.log[i].index < |s.uf|
  }

  lemma LoggedFits(s: Pos, t: Pos)
    requires Logged(s, t) && LogFits(s)
    ensures LogFits(t)
  {
    forall i | 0 <= i < |t.log|
      ensures 0 <= t.log[i].index < |t.uf|
    {
      if i < |s.log| {
        assert t.log[i] == s.log[i];
      }
    }
  }

  /** A mark that was logged stays in the log. */
  lemma MarkStays(s: Pos, t: Pos, i: nat)
    requires Logged(s, t) && i < |s.log|
    ensures i < |t.log| && t.log[i] == s.log[i]
  {
    assert t.log[..|s.log|][i] == t.log[i];
  }

  lemma LoggedSame(s: Pos, t: Pos)
    requires s.uf == t.uf && s.log == t.log
    ensures Logged(s, t)
  {
  }

  lemma UfSetLogged(s: Pos, i: int, x: int)
    requires 0 < i < |s.uf|
    ensures Logged(s, UfSet(s, i, x))
  {
    var t := UfSet(s, i, x);
    assert t.log[..|t.log| - 1] == s.log;
    assert t.uf[i := s.uf[i]] == s.uf;
  }

  lemma {:induction false} RewindTwice(uf: seq<int>, log: seq<Entry>, m: nat, n: nat)
    requires n <= m <= |log|
    ensures Rewind(uf, log, n) == Rewind(Rewind(uf, log, m), log[..m], n)
    decreases |log|
  {
    if |log| == m {
      assert log[..m] == log;
    } else {
      var e := log[|log| - 1];
      var l := log[..|log| - 1];
      assert l[..m] == log[..m];
      RewindTwice(if 0 <= e.index < |uf| then uf[e.index := e.value] else uf, l, m, n);
    }
  }

  lemma LoggedTrans(s: Pos, t: Pos, u: Pos)
    requires Logged(s, t) && Logged(t, u)
    ensures Logged(s, u)
  {
    RewindTwice(u.uf, u.log, |t.log|, |s.log|);
    assert u.log[..|s.log|] == t.log[..|s.log|];
    forall i | |s.log| <= i < |u.log|
      ensures 0 < u.log[i].index < |u.uf|
    {
      if i < |t.log| {
        assert u.log[i] == t.log[i];
      }
    }
  }

  /** Unwinding to the mark is rewinding everything logged after it. */
  lemma {:induction false} UnwindIsRewind(uf: seq<int>, log: seq<Entry>, n: nat)
    requires n < |log| && log[n].index == 0 && forall i :: n < i < |log| ==> log[i].index > 0
    ensures Unwind(uf, log) == (Rewind(uf, log, n + 1), log[..n])
    decreases |log|
  {
    if n < |log| - 1 {
      var e := log[|log| - 1];
      var l := log[..|log| - 1];
      UnwindIsRewind(if 0 <= e.index < |uf| then uf[e.index := e.value] else uf, l, n);
      assert l[..n] == log[..n];
    }
  }

  /** A move marked at s and logged up to t is taken back exactly. */
  lemma UnwindToMark(s: Pos, m: Pos, t: Pos)
    requires m.log == s.log + [MARK] && m.uf == s.uf && Logged(m, t)
    ensures Unwind(t.uf, t.log) == (s.uf, s.log)
  {
    var n := |s.log|;
    assert t.log[n] == t.log[..n + 1][n] == MARK;
    UnwindIsRewind(t.uf, t.log, n);
    assert t.log[..n] == t.log[..n + 1][..n] == s.log;
  }

  lemma {:induction false} CaptureLogged(e: Env, s: Pos, p: int, c: int, w: Witness)
    requires Shape(e, s) && 0 <= p < |s.board| && IsStone(c) && Trees(s.board, e.v, s.uf, w, Other(c))
    ensures Logged(s, Capture(e, s, p, c).0)
    decreases Count(s.board, c), 0
  {
    var t := Other(c);
    if s.board[p] == c {
      var s0 := Paint(e, s, p, c, EMPTY, 1);
      CountUpdate(s.board, p, EMPTY, c);
      TreesStay(s.board, s.uf, s0.board, s0.uf, e.v, w, t);
      CaptureAroundLogged(e, s0, p, c, w, 0);
      var r := CaptureAround(e, s0, p, c, 0).0;
      assert Capture(e, s, p, c).0 == r;
      LoggedSame(s, s0);
      LoggedTrans(s, s0, r);
    } else if s.board[p] == t {
      RootIsRep(s.board, e.v, s.uf, w, t, p);
      UfSetLogged(s, w.rep[p], s.uf[w.rep[p]] - 1);
    } else {
      LoggedSame(s, s);
    }
  }

  lemma {:induction false} CaptureAroundLogged(e: Env, s: Pos, p: int, c: int, w: Witness, d: nat)
    requires Shape(e, s) && 2 <= e.v <= p < |s.board| - e.v && d <= 4 && IsStone(c)
    requires Trees(s.board, e.v, s.uf, w, Other(c))
    ensures Logged(s, CaptureAround(e, s, p, c, d).0)
    decreases Count(s.board, c), 5 - d
  {
    if d == 4 {
      LoggedSame(s, s);
    } else {
      var n := Nbr(e.v, p, d);
      var a := Capture(e, s, n, c);
      var r := CaptureAround(e, a.0, p, c, d + 1);
      assert CaptureAround(e, s, p, c, d).0 == r.0;
      CaptureCredits(e, s, n, c, w);
      CaptureLogged(e, s, n, c, w);
      CaptureAroundLogged(e, a.0, p, c, w, d + 1);
      LoggedTrans(s, a.0, r.0);
    }
  }
}
