/** The mailer: what is written to the mail server between DATA and the final
    dot is made transparent on the way, through a buffer that lives from call to
    call. */
module Mailer {
  /** The size of the output buffer. */
  const SIZE := 512

  // The encoding -----------------------------------------------------------------------------------

  /** What a character becomes; mid tells that the line has begun. */
  function Code(mid: bool, c: char): string {
    if c == '.' then (if mid then "." else "..")
    else if c == '\r' then ""
    else if c == '\n' then "\r\n"
    else [c]
  }

  function Mid(mid: bool, c: char): bool {
    if c == '\r' then mid else c != '\n'
  }

  function Coded(mid: bool, s: string): string
    decreases |s|
  {
    if s == "" then "" else Code(mid, s[0]) + Coded(Mid(mid, s[0]), s[1..])
  }

  function After(mid: bool, s: string): bool
    decreases |s|
  {
    if s == "" then mid else After(Mid(mid, s[0]), s[1..])
  }

  /** What ends the message: the line, if it has begun, and a dot. */
  function Ending(mid: bool): string {
    if mid then "\r\n" else ""
  }

  const DOT := ".\r\n"

  /** Where the text is cut into calls does not matter. */
  lemma {:induction false} CodedTwice(mid: bool, a: string, b: string)
    ensures Coded(mid, a + b) == Coded(mid, a) + Coded(After(mid, a), b)
    ensures After(mid, a + b) == After(After(mid, a), b)
    decreases |a|
  {
    hide Code, Mid;
    if a == "" {
      assert a + b == b;
    } else {
      assert (a + b)[1..] == a[1..] + b;
      CodedTwice(Mid(mid, a[0]), a[1..], b);
      assert Coded(mid, a + b) == Code(mid, a[0]) + (Coded(Mid(mid, a[0]), a[1..]) + Coded(After(mid, a), b));
    }
  }

  lemma CodedNone(mid: bool)
    ensures Coded(mid, "") == "" && After(mid, "") == mid
  {
  }

  lemma CodedMore(mid: bool, a: string, c: char)
    ensures Coded(mid, a + [c]) == Coded(mid, a) + Code(After(mid, a), c)
    ensures After(mid, a + [c]) == Mid(After(mid, a), c)
  {
    CodedTwice(mid, a, [c]);
    assert Coded(After(mid, a), [c]) == Code(After(mid, a), c) + "";
    assert [c][1..] == "";
  }

  /** A line without CR and LF is sent as it is, with a dot before it if it starts
      with one, and CR LF behind it. */
  lemma LineCoded(line: string)
    requires forall i :: 0 <= i < |line| ==> line[i] != '\r' && line[i] != '\n'
    ensures Coded(false, line + "\n") == (if line != "" && line[0] == '.' then "." else "") + line + "\r\n"
    ensures !After(false, line + "\n")
  {
    hide Coded, After;
    CodedMore(false, line, '\n');
    LineStarts(line);
  }

  lemma LineStarts(line: string)
    requires forall i :: 0 <= i < |line| ==> line[i] != '\r' && line[i] != '\n'
    ensures Coded(false, line) == (if line != "" && line[0] == '.' then "." else "") + line
  {
    hide Coded, After;
    Glued(line);
    CodedNone(false);
    if line != "" {
      Inside(line[1..]);
      CodedFirst(line);
    }
  }

  lemma Glued(line: string)
    ensures "" + line == line
    ensures line != "" ==> [line[0]] + line[1..] == line
    ensures line != "" && line[0] == '.' ==> ".." + line[1..] == "." + line
  {
  }

  lemma CodedFirst(line: string)
    requires line != "" && line[0] != '\r' && line[0] != '\n'
    ensures Coded(false, line) == (if line[0] == '.' then ".." else [line[0]]) + Coded(true, line[1..])
    ensures After(false, line) == After(true, line[1..])
  {
  }

  /** Inside a line nothing changes. */
  lemma {:induction false} Inside(s: string)
    requires forall i :: 0 <= i < |s| ==> s[i] != '\r' && s[i] != '\n'
    ensures Coded(true, s) == s && After(true, s)
    decreases |s|
  {
    if s != "" {
      Inside(s[1..]);
    }
  }

  /** The message is given a line end only if its last line has none: what counts is
      the last character that is no CR. */
  lemma MessageEnds(s: string, c: char, t: string)
    requires c != '\r' && forall i :: 0 <= i < |t| ==> t[i] == '\r'
    ensures Ending(After(false, s + [c] + t)) == if c == '\n' then "" else "\r\n"
    ensures Ending(After(false, t)) == ""
  {
    CodedMore(false, s, c);
    CodedTwice(false, s + [c], t);
    OnlyReturns(After(false, s + [c]), t);
    OnlyReturns(false, t);
  }

  lemma {:induction false} OnlyReturns(mid: bool, t: string)
    requires forall i :: 0 <= i < |t| ==> t[i] == '\r'
    ensures After(mid, t) == mid
    decreases |t|
  {
    if t != "" {
      OnlyReturns(mid, t[1..]);
    }
  }

  // The receiver -----------------------------------------------------------------------------------

  datatype Mail = Incomplete | Received(text: string, rest: string)

  predicate Starts(t: string, p: string) {
    |p| <= |t| && t[..|p|] == p
  }

  function Behind(s: string, m: Mail): Mail {
    if m.Incomplete? then m else Received(s + m.text, m.rest)
  }

  /** A receiver as in section 4.5.2 of RFC 5321: a line that is a dot ends the
      message, of other lines a dot at the start is deleted. */
  function Receive(t: string, start: bool): Mail
    decreases |t|
  {
    if t == "" then Incomplete
    else if start && Starts(t, DOT) then Received("", t[3..])
    else if start && t[0] == '.' then Receive(t[1..], false)
    else if Starts(t, "\r\n") then Behind("\r\n", Receive(t[2..], true))
    else Behind([t[0]], Receive(t[1..], false))
  }

  /** The text as it is meant to arrive: without CR, and with CR LF for LF. */
  function Lines(s: string): string {
    if s == "" then ""
    else (if s[0] == '\r' then "" else if s[0] == '\n' then "\r\n" else [s[0]]) + Lines(s[1..])
  }

  /** The receiver takes what was sent for one character. */
  lemma Taken(mid: bool, c: char, u: string)
    requires u != ""
    ensures var m := Receive(u, !Mid(mid, c));
            Receive(Code(mid, c) + u, !mid) == if c == '\r' then m else Behind(if c == '\n' then "\r\n" else [c], m)
  {
    var t := Code(mid, c) + u;
    if c == '\r' {
      assert t == u;
    } else if c == '\n' {
      assert t[..2] == "\r\n" && t[2..] == u && t[0] == '\r';
    } else if c == '.' && !mid {
      assert t[0] == '.' && t[1..] == "." + u && (t[1..])[1..] == u && t[1] == '.';
      assert !Starts(t, DOT);
    } else {
      assert t[0] == c && t[1..] == u;
    }
  }

  lemma TakenEnd(mid: bool, rest: string)
    ensures Receive(Ending(mid) + DOT + rest, !mid) == Received(Ending(mid), rest)
  {
    var t := Ending(mid) + DOT + rest;
    assert (DOT + rest)[..3] == DOT && (DOT + rest)[3..] == rest;
    if mid {
      assert t[..2] == "\r\n" && t[2..] == DOT + rest && t[0] == '\r';
    } else {
      assert t == DOT + rest;
    }
  }

  /** The receiver gets the text, and takes no more and no less than was sent for it. */
  lemma {:induction false} Transparent(mid: bool, s: string, rest: string)
    ensures Receive(Coded(mid, s) + Ending(After(mid, s)) + DOT + rest, !mid) ==
            Received(Lines(s) + Ending(After(mid, s)), rest)
    decreases |s|
  {
    hide Receive, Code, Mid, Ending;
    var e := Ending(After(mid, s));
    if s == "" {
      assert Coded(mid, s) + e + DOT + rest == e + DOT + rest && Lines(s) + e == e;
      TakenEnd(mid, rest);
    } else {
      var m := Mid(mid, s[0]);
      var u := Coded(m, s[1..]) + e + DOT + rest;
      assert Coded(mid, s) + e + DOT + rest == Code(mid, s[0]) + u;
      assert u != "";
      Transparent(m, s[1..], rest);
      Taken(mid, s[0], u);
      Head(s, e);
    }
  }

  lemma Head(s: string, e: string)
    requires s != ""
    ensures Lines(s) + e == (if s[0] == '\r' then "" else if s[0] == '\n' then "\r\n" else [s[0]]) + (Lines(s[1..]) + e)
  {
  }

  // The buffer -------------------------------------------------------------------------------------

  predicate OnlyCR(s: string) {
    forall i :: 0 <= i < |s| ==> s[i] == '\r'
  }

  lemma OnlyNone()
    ensures OnlyCR("")
  {
  }

  lemma OnlyMore(s: string, c: char)
    ensures OnlyCR(s + [c]) <==> OnlyCR(s) && c == '\r'
  {
    assert (s + [c])[|s|] == c && forall i :: 0 <= i < |s| ==> (s + [c])[i] == s[i];
  }

  /** Nothing is sent for a text exactly if there is nothing but CR in it. */
  lemma {:induction false} Silent(mid: bool, s: string)
    ensures Coded(mid, s) == "" <==> OnlyCR(s)
    decreases |s|
  {
    if s != "" {
      Silent(Mid(mid, s[0]), s[1..]);
      assert s == [s[0]] + s[1..];
    }
  }

  /** A chunk of one CR is such a text. */
  lemma LoneReturn(mid: bool)
    ensures OnlyCR("\r") && Coded(mid, "\r") == ""
  {
    Silent(mid, "\r");
  }

  function Joined(chunks: seq<string>): string {
    if chunks == [] then "" else Joined(chunks[..|chunks| - 1]) + chunks[|chunks| - 1]
  }

  // How full the buffer gets -----------------------------------------------------------------------

  /** What the writes answer: number k takes answers(k) bytes, or all it is given
      if that is less; an answer below one is a failure. */
  type Answers = nat -> int

  /** How much is in the buffer, how many writes were made, and where the line is. */
  datatype Gauge = Gauge(level: nat, calls: nat, mid: bool)

  function Take(answers: Answers, g: Gauge): (n: nat)
    ensures n <= g.level
  {
    var a := answers(g.calls);
    if a <= 0 then 0 else if a < g.level then a else g.level
  }

  function Write(answers: Answers, g: Gauge): Gauge {
    Gauge(g.level - Take(answers, g), g.calls + 1, g.mid)
  }

  /** One character goes in; a buffer that is nearly full is written. */
  function Fed(answers: Answers, g: Gauge, c: char): Gauge {
    var h := Gauge(g.level + |Code(g.mid, c)|, g.calls, Mid(g.mid, c));
    if h.level + 2 >= SIZE then Write(answers, h) else h
  }

  /** The buffer is written as soon as it holds 510 bytes or more, of which as many go
      as the write takes. */
  lemma WrittenWhenFull(answers: Answers, g: Gauge, c: char)
    ensures var n, h, a := g.level + |Code(g.mid, c)|, Fed(answers, g, c), answers(g.calls);
            if n < 510 then h.level == n && h.calls == g.calls
            else h.calls == g.calls + 1 && h.level == if a <= 0 then n else if a < n then n - a else 0
  {
  }

  /** How full the buffer would be after a text if it had no bounds. */
  function Levels(answers: Answers, g: Gauge, s: string): Gauge
    decreases |s|
  {
    if s == "" then g else Fed(answers, Levels(answers, g, s[..|s| - 1]), s[|s| - 1])
  }

  /** What is left at the end of a call is written. */
  function AfterCall(answers: Answers, g: Gauge, s: string): Gauge {
    var h := Levels(answers, g, s);
    if h.level > 0 then Write(answers, h) else h
  }

  ghost predicate AllTake(answers: Answers, from: nat, to: nat) {
    forall k {:trigger answers(k)} :: from <= k < to ==> answers(k) > 0
  }

  /** Character n of the text does not fit any more, and no write failed before it. */
  ghost predicate OverrunAt(answers: Answers, g: Gauge, s: string, n: nat)
    requires n < |s|
  {
    var h := Levels(answers, g, s[..n]);
    AllTake(answers, g.calls, h.calls) && h.level + |Code(h.mid, s[n])| > SIZE
  }

  ghost predicate Overruns(answers: Answers, g: Gauge, s: string) {
    exists n: nat {:trigger OverrunAt(answers, g, s, n)} :: n < |s| && OverrunAt(answers, g, s, n)
  }

  /** Two writes took a single byte each, and those between them two bytes. */
  ghost predicate Stubs(answers: Answers, from: nat, i: nat, j: nat) {
    && from <= i < j && AllTake(answers, from, j) && answers(i) == 1 && answers(j) == 1
    && forall k {:trigger answers(k)} :: i < k < j ==> answers(k) == 2
  }

  ghost predicate Stubby(answers: Answers, from: nat) {
    exists i, j :: Stubs(answers, from, i, j)
  }

  lemma LevelsMore(answers: Answers, g: Gauge, s: string, c: char)
    ensures Levels(answers, g, s + [c]) == Fed(answers, Levels(answers, g, s), c)
  {
    assert (s + [c])[..|s|] == s;
  }

  lemma {:induction false} LevelsTwice(answers: Answers, g: Gauge, a: string, b: string)
    ensures Levels(answers, g, a + b) == Levels(answers, Levels(answers, g, a), b)
    decreases |b|
  {
    if b == "" {
      assert a + b == a;
    } else {
      assert (a + b)[..|a + b| - 1] == a + b[..|b| - 1];
      LevelsTwice(answers, g, a, b[..|b| - 1]);
    }
  }

  lemma {:induction false} CallsGrow(answers: Answers, g: Gauge, s: string)
    ensures Levels(answers, g, s).calls >= g.calls && Levels(answers, g, s).mid == After(g.mid, s)
    decreases |s|
  {
    if s != "" {
      CallsGrow(answers, g, s[..|s| - 1]);
      CodedMore(g.mid, s[..|s| - 1], s[|s| - 1]);
      assert s == s[..|s| - 1] + [s[|s| - 1]];
    }
  }

  /** The last write that left too much took one byte, and all after it two. */
  ghost predicate Half(answers: Answers, from: nat, i: nat, to: nat) {
    from <= i < to && answers(i) == 1 && forall k {:trigger answers(k)} :: i < k < to ==> answers(k) == 2
  }

  /** Before the second such write there is always room. */
  lemma {:induction false} RoomUnless(answers: Answers, g: Gauge, s: string)
    requires g.level + 2 < SIZE && AllTake(answers, g.calls, Levels(answers, g, s).calls)
    ensures var h := Levels(answers, g, s);
            || h.level + 2 < SIZE
            || (h.level + 2 == SIZE && exists i: nat :: Half(answers, g.calls, i, h.calls))
            || Stubby(answers, g.calls)
    decreases |s|
  {
    if s != "" {
      var t := s[..|s| - 1];
      var h := Levels(answers, g, t);
      CallsGrow(answers, g, t);
      assert s == t + [s[|s| - 1]];
      LevelsMore(answers, g, t, s[|s| - 1]);
      RoomUnless(answers, g, t);
      if !Stubby(answers, g.calls) {
        RoomNext(answers, g.calls, h, s[|s| - 1]);
      }
    }
  }

  lemma RoomNext(answers: Answers, from: nat, h: Gauge, c: char)
    requires from <= h.calls && AllTake(answers, from, Fed(answers, h, c).calls)
    requires h.level + 2 < SIZE || (h.level + 2 == SIZE && exists i: nat :: Half(answers, from, i, h.calls))
    ensures var u := Fed(answers, h, c);
            || u.level + 2 < SIZE
            || (u.level + 2 == SIZE && exists i: nat :: Half(answers, from, i, u.calls))
            || Stubby(answers, from)
  {
    var u, k := Fed(answers, h, c), h.calls;
    if u.level + 2 >= SIZE {
      assert u.calls == k + 1 && answers(k) > 0;
      if h.level + 2 < SIZE {
        assert Half(answers, from, k, u.calls);
      } else {
        var i: nat :| Half(answers, from, i, h.calls);
        if answers(k) == 1 {
          assert Stubs(answers, from, i, k);
        } else {
          assert Half(answers, from, i, u.calls);
        }
      }
    }
  }

  /** An overrun takes two such writes. */
  lemma OverrunNeeds(answers: Answers, g: Gauge, s: string)
    requires g.level + 2 < SIZE && Overruns(answers, g, s)
    ensures Stubby(answers, g.calls)
  {
    var n: nat :| n < |s| && OverrunAt(answers, g, s, n);
    RoomUnless(answers, g, s[..n]);
  }

  function Letters(n: nat): (s: string)
    ensures |s| == n
  {
    if n == 0 then "" else Letters(n - 1) + "x"
  }

  lemma {:induction false} Pad(answers: Answers, g: Gauge, n: nat)
    requires g.level + n + 2 < SIZE
    ensures var h := Levels(answers, g, Letters(n)); h.level == g.level + n && h.calls == g.calls
    decreases n
  {
    if n > 0 {
      Pad(answers, g, n - 1);
      LevelsMore(answers, g, Letters(n - 1), 'x');
    }
  }

  /** A text that makes one write of all but one bytes of the buffer. */
  lemma OneWrite(answers: Answers, g: Gauge) returns (s: string)
    requires g.level + 1 < SIZE
    ensures Levels(answers, g, s) == Write(answers, Gauge(SIZE - 1, g.calls, Levels(answers, g, s).mid))
  {
    hide Levels, Letters, Take;
    if g.level + 2 == SIZE {
      s := "" + ['x'];
      LevelsNone(answers, g);
      LevelsMore(answers, g, "", 'x');
    } else {
      var p := Letters(SIZE - 3 - g.level);
      Pad(answers, g, SIZE - 3 - g.level);
      LevelsMore(answers, g, p, '\n');
      s := p + ['\n'];
    }
  }

  /** A text that makes all writes up to number k - 1, the last of them of that many bytes. */
  lemma {:induction false} Reach(answers: Answers, g: Gauge, k: nat) returns (s: string)
    requires g.level + 2 < SIZE && g.calls < k && AllTake(answers, g.calls, k)
    ensures var h := Levels(answers, g, s);
            h.calls == k && h.level == Write(answers, Gauge(SIZE - 1, k - 1, false)).level
    decreases k
  {
    var t := "";
    if g.calls + 1 < k {
      t := Reach(answers, g, k - 1);
      assert answers(k - 2) > 0;
    }
    var h := Levels(answers, g, t);
    var u := OneWrite(answers, h);
    LevelsTwice(answers, g, t, u);
    s := t + u;
  }

  /** While writes take two bytes, line ends keep the buffer as full as it is. */
  lemma {:induction false} Hold(answers: Answers, g: Gauge, s: string, k: nat) returns (t: string)
    requires Levels(answers, g, s).calls <= k && Levels(answers, g, s).level + 2 == SIZE
    requires forall j {:trigger answers(j)} :: Levels(answers, g, s).calls <= j < k ==> answers(j) == 2
    ensures var h := Levels(answers, g, t); h.calls == k && h.level + 2 == SIZE
    decreases k
  {
    t := s;
    if Levels(answers, g, s).calls < k {
      t := Hold(answers, g, s, k - 1);
      LevelsMore(answers, g, t, '\n');
      assert answers(k - 1) == 2;
      t := t + ['\n'];
    }
  }

  /** And two such writes are enough: then some text overruns the buffer. */
  lemma OverrunPossible(answers: Answers, g: Gauge, i: nat, j: nat) returns (s: string)
    requires g.level + 2 < SIZE && Stubs(answers, g.calls, i, j)
    ensures Overruns(answers, g, s)
  {
    assert answers(i) == 1 && answers(j) == 1;
    var t := Reach(answers, g, i + 1);
    var u := Hold(answers, g, t, j);
    LevelsMore(answers, g, u, '\n');
    var v := u + ['\n'];
    s := v + ['\n'];
    assert s[..|v|] == v && Levels(answers, g, v).calls == j + 1;
    assert OverrunAt(answers, g, s, |v|);
  }

  /** Some text overruns the buffer exactly if two writes take a single byte each
      and the writes between them two. */
  lemma OverrunsExactly(answers: Answers, g: Gauge)
    requires g.level + 2 < SIZE
    ensures (exists s :: Overruns(answers, g, s)) <==> Stubby(answers, g.calls)
  {
    if s :| Overruns(answers, g, s) {
      OverrunNeeds(answers, g, s);
    }
    if Stubby(answers, g.calls) {
      var i, j :| Stubs(answers, g.calls, i, j);
      var s := OverrunPossible(answers, g, i, j);
    }
  }

  /** Three line ends overrun a buffer with 509 bytes in it if two writes take one
      byte each, but not if the second takes two. */
  lemma ThreeLineEnds(answers: Answers)
    requires answers(0) == 1
    ensures answers(1) == 1 ==> Overruns(answers, Gauge(SIZE - 3, 0, false), "\n\n\n")
    ensures answers(1) == 2 ==> !Overruns(answers, Gauge(SIZE - 3, 0, false), "\n\n\n")
  {
    var g := Gauge(SIZE - 3, 0, false);
    var s := "\n\n\n";
    assert s[..0] == "" && s[..1] == "" + ['\n'] && s[..2] == s[..1] + ['\n'];
    LevelsMore(answers, g, s[..0], '\n');
    LevelsMore(answers, g, s[..1], '\n');
    assert Levels(answers, g, s[..1]) == Gauge(SIZE - 2, 1, false);
    assert answers(1) == 1 ==> OverrunAt(answers, g, s, 2);
  }

  lemma LevelsNone(answers: Answers, g: Gauge)
    ensures Levels(answers, g, "") == g
  {
  }

  lemma RoomAt(answers: Answers, g: Gauge, s: string, idx: nat)
    requires idx < |s| && AllTake(answers, g.calls, Levels(answers, g, s[..idx]).calls)
    ensures var h := Levels(answers, g, s[..idx]);
            && (OverrunAt(answers, g, s, idx) <==> h.level + |Code(h.mid, s[idx])| > SIZE)
            && Levels(answers, g, s[..idx + 1]) == Fed(answers, h, s[idx])
  {
    assert s[..idx + 1] == s[..idx] + [s[idx]];
    LevelsMore(answers, g, s[..idx], s[idx]);
  }

  /** A failed write is the last thing that happens: no overrun comes after it, and
      it is among the writes of the call. */
  lemma NoMore(answers: Answers, g: Gauge, s: string, idx: nat)
    requires idx < |s| && answers(Levels(answers, g, s[..idx]).calls) <= 0
    requires Levels(answers, g, s[..idx + 1]).calls > Levels(answers, g, s[..idx]).calls
    requires forall n: nat {:trigger OverrunAt(answers, g, s, n)} :: n <= idx ==> !OverrunAt(answers, g, s, n)
    ensures !Overruns(answers, g, s) && !AllTake(answers, g.calls, AfterCall(answers, g, s).calls)
  {
    var k := Levels(answers, g, s[..idx]).calls;
    CallsGrow(answers, g, s[..idx]);
    forall n: nat | idx < n <= |s|
      ensures Levels(answers, g, s[..n]).calls > k
    {
      LevelsTwice(answers, g, s[..idx + 1], s[idx + 1..n]);
      assert s[..n] == s[..idx + 1] + s[idx + 1..n];
      CallsGrow(answers, Levels(answers, g, s[..idx + 1]), s[idx + 1..n]);
    }
    assert s[..|s|] == s;
  }

  lemma Parted(a: string, b: string, k: nat)
    requires k <= |b|
    ensures a + b[..k] + b[k..] == a + b
  {
    assert b == b[..k] + b[k..];
  }

  function DotTaken(rc: int): string {
    if rc <= 0 then "" else if rc < |DOT| then DOT[..rc] else DOT
  }

  /** The dot stands at the end exactly if it was sent whole, and after all else. */
  lemma InOrder(sent: string, left: string, total: string, a: int)
    requires sent + left == total
    ensures sent + DotTaken(a) == total + DOT <==> left == "" && a >= |DOT|
    ensures left == "" ==> sent == total
  {
    if sent + DotTaken(a) == total + DOT {
      assert |sent + DotTaken(a)| == |total| + |DOT|;
    }
    assert left == "" ==> sent + left == sent;
  }

  class Stream {
    const temp: array<char>
    var done: nat
    var mid: bool
    ghost var sent: string
    // What was sent before this message, and the text of the message so far.
    ghost var before: string
    ghost var fed: string
    // What the writes answer, and how many were made.
    const answers: Answers
    var calls: nat
    // All writes took all they were given; how many took one byte of several; some
    // write failed; something did not fit into the buffer.
    ghost var whole: bool
    ghost var stubs: nat
    ghost var broken: bool
    ghost var lost: bool

    ghost function G(): Gauge
      reads this
    {
      Gauge(done, calls, mid)
    }

    /** What was sent and what is in the buffer is what the text becomes. */
    ghost predicate Told()
      reads this, temp
    {
      && temp.Length == SIZE && done <= SIZE && mid == After(false, fed)
      && sent + temp[..done] == before + Coded(false, fed)
    }

    ghost predicate Valid()
      reads this, temp
    {
      && Told() && !broken && !lost
      && done + 2 < SIZE + stubs && (whole ==> stubs == 0 && done == 0)
    }

    constructor (answers: Answers)
      ensures Valid() && fresh(temp) && this.answers == answers
      ensures calls == stubs == 0 && whole && sent == before == fed == ""
    {
      temp := new char[SIZE](_ => '\0');
      this.answers, calls, done, mid := answers, 0, 0, false;
      sent, before, fed, whole, stubs, broken, lost := "", "", "", true, 0, false, false;
    }

    /** The memmove after a write. */
    method MoveDown(rc: nat)
      requires rc < done <= temp.Length
      modifies temp
      ensures temp[..done - rc] == old(temp[rc..done])
    {
      ghost var was := temp[..];
      var n := done - rc;
      for i := 0 to n
        invariant forall k :: 0 <= k < i ==> temp[k] == was[k + rc]
        invariant forall k :: i <= k < done ==> temp[k] == was[k]
      {
        temp[i] := temp[i + rc];
      }
    }

    /** wrap_write, and keeping what it did not take. */
    method Push() returns (rc: int)
      requires temp.Length == SIZE && 0 < done <= SIZE
      modifies this`done, this`sent, this`calls, this`whole, this`stubs, this`broken, temp
      ensures rc <= old(done) && done == old(done) - (if rc > 0 then rc else 0)
      ensures sent + temp[..done] == old(sent + temp[..done])
      ensures broken == (old(broken) || rc <= 0) && whole == (old(whole) && rc == old(done))
      ensures stubs == old(stubs) + if rc == 1 < old(done) then 1 else 0
      ensures G() == Write(answers, old(G())) && (rc > 0 <==> answers(old(calls)) > 0)
    {
      hide Coded, After, Levels;
      rc := if answers(calls) < done then answers(calls) else done;
      calls := calls + 1;
      whole, stubs := whole && rc == done, stubs + if rc == 1 < done then 1 else 0;
      if rc <= 0 {
        broken := true;
        return;
      }
      Parted(sent, temp[..done], rc);
      assert temp[..done][..rc] == temp[..rc] && temp[..done][rc..] == temp[rc..done];
      sent := sent + temp[..rc];
      if rc < done {
        MoveDown(rc);
      }
      done := done - rc;
      assert temp[..done] == old(temp[rc..done]);
    }

    method Append(c: char)
      requires done < temp.Length
      modifies this`done, temp
      ensures done == old(done) + 1 && temp[..done] == old(temp[..done]) + [c]
    {
      temp[done] := c;
      done := done + 1;
    }

    /** The switch in the loop of wrap_line. */
    method Put(c: char)
      requires Told() && done + |Code(mid, c)| <= SIZE
      modifies this`done, this`mid, this`fed, temp
      ensures Told() && fed == old(fed) + [c] && old(done) <= done <= old(done) + 2
      ensures G() == Gauge(old(done) + |Code(old(mid), c)|, calls, Mid(old(mid), c))
      ensures done == old(done) <==> c == '\r'
    {
      hide Coded, After;
      CodedMore(false, fed, c);
      ghost var was := temp[..done];
      if c == '.' {
        if !mid {
          Append('.');
        }
        mid := true;
        Append(c);
      } else if c == '\r' {
      } else if c == '\n' {
        Append('\r');
        mid := false;
        Append(c);
      } else {
        mid := true;
        Append(c);
      }
      assert temp[..done] == was + Code(old(mid), c);
      assert sent + temp[..done] == sent + was + Code(old(mid), c);
      fed := fed + [c];
    }

    /** The body of the loop of wrap_line: rc is what a write gave, if there was one. */
    method Feed(c: char, rc0: int) returns (stop: bool, rc: int)
      requires Told() && !broken && !lost && done + 2 < SIZE + stubs && rc0 >= 0
      modifies this`done, this`mid, this`fed, this`sent, this`calls, this`whole, this`stubs, this`broken, this`lost
      modifies temp
      ensures lost <==> old(done) + |Code(old(mid), c)| > SIZE
      ensures lost ==> old(stubs) == stubs >= 2 && !broken && whole == old(whole)
      ensures !lost ==> Told() && fed == old(fed) + [c] && G() == Fed(answers, old(G()), c)
      ensures !lost && !broken ==> done + 2 < SIZE + stubs && (whole ==> old(whole) && stubs == old(stubs))
      ensures broken <==> calls > old(calls) && answers(old(calls)) <= 0
      ensures (broken ==> rc <= 0 && !whole) && (stop <==> lost || broken)
      ensures !lost && !broken ==>
        if calls > old(calls) then rc > 0 else rc == rc0 && (done == 0 <==> old(done) == 0 && c == '\r')
      ensures !lost && !broken && calls == old(calls) ==> whole == old(whole) && done >= old(done)
      ensures !lost && !broken && calls > old(calls) ==> !(old(done) == 0 && c == '\r')
      ensures stubs >= old(stubs) && old(calls) <= calls <= old(calls) + 1
    {
      hide Coded, After, Levels, Mid;
      stop, rc := false, rc0;
      if done + |Code(mid, c)| > SIZE {
        lost := true;
        return true, rc;
      }
      Put(c);
      if done + 2 >= SIZE {
        rc := Push();
        stop := rc <= 0;
      }
    }

    /** wrap_line. The result is -1 also if there was nothing to write. The code
        does not look whether there is room: the model stops where the code would
        write past the buffer, and says exactly when that happens. */
    method WrapLine(buff: string) returns (rc: int)
      requires Valid()
      modifies this`done, this`mid, this`fed, this`sent, this`calls, this`whole, this`stubs, this`broken, this`lost
      modifies temp
      ensures lost <==> Overruns(answers, old(G()), buff)
      ensures !lost ==> (broken <==> !AllTake(answers, old(calls), AfterCall(answers, old(G()), buff).calls))
      ensures !broken && !lost ==> Valid() && fed == old(fed) + buff && G() == AfterCall(answers, old(G()), buff)
      ensures broken || lost ==> rc == -1
      ensures !broken && !lost ==> rc == if old(done) == 0 && OnlyCR(buff) then -1 else |buff|
      ensures stubs >= old(stubs) && (whole ==> old(whole)) && (lost ==> stubs >= 2 && !whole)
    {
      hide Coded, After, OnlyCR, Code, Mid, Fed, Levels, OverrunAt;
      rc := 0;
      var idx := 0;
      OnlyNone();
      LevelsNone(answers, G());
      assert buff[..0] == "" && buff[..|buff|] == buff;
      while idx < |buff|
        invariant idx <= |buff| && Told() && !broken && !lost && fed == old(fed) + buff[..idx]
        invariant done + 2 < SIZE + stubs && stubs >= old(stubs) && (whole ==> old(whole) && stubs == 0)
        invariant G() == Levels(answers, old(G()), buff[..idx])
        invariant calls >= old(calls) && AllTake(answers, old(calls), calls)
        invariant forall n: nat {:trigger OverrunAt(answers, old(G()), buff, n)} :: n < idx ==>
          !OverrunAt(answers, old(G()), buff, n)
        invariant rc >= 0
        invariant rc == 0 ==>
          whole == old(whole) && done >= old(done) && (done == 0 <==> old(done) == 0 && OnlyCR(buff[..idx]))
        invariant rc > 0 ==> !(old(done) == 0 && OnlyCR(buff[..idx]))
      {
        assert buff[..idx + 1] == buff[..idx] + [buff[idx]];
        OnlyMore(buff[..idx], buff[idx]);
        RoomAt(answers, old(G()), buff, idx);
        var stop;
        stop, rc := Feed(buff[idx], rc);
        if stop {
          if broken {
            NoMore(answers, old(G()), buff, idx);
          }
          return -1;
        }
        idx := idx + 1;
      }
      if done != 0 {
        rc := Push();
      }
      rc := if rc <= 0 then -1 else idx;
    }

    /** wrap_line without a text: end the line, if it has begun. The line end is
        not part of fed, so it is told apart. */
    method WrapEnd()
      requires Valid()
      modifies this`done, this`mid, this`sent, this`calls, this`whole, this`stubs, this`broken, this`lost, temp
      ensures (whole ==> old(whole) && stubs == 0) && (lost ==> stubs >= 2 && !whole)
      ensures lost <==> old(mid) && old(done) + 2 > SIZE
      ensures !lost ==> done <= SIZE && !mid
      ensures !lost ==> sent + temp[..done] == before + Coded(false, fed) + Ending(After(false, fed))
      ensures !broken && whole ==> done == 0
    {
      hide Coded, After;
      var m := mid;
      ghost var was := temp[..done];
      if mid {
        if done + 2 > SIZE {
          lost := true;
          return;
        }
        temp[done], temp[done + 1] := '\r', '\n';
        done := done + 2;
      }
      mid := false;
      assert temp[..done] == was + Ending(m);
      assert sent + temp[..done] == sent + was + Ending(m);
      if done != 0 {
        var rc := Push();
      }
    }

    /** add_data: a text is passed on whole. */
    method AddData(buff: string) returns (rc: int)
      requires Valid()
      modifies this`done, this`mid, this`fed, this`sent, this`calls, this`whole, this`stubs, this`broken, this`lost
      modifies temp
      ensures lost <==> Overruns(answers, old(G()), buff)
      ensures !broken && !lost ==> rc == if buff != "" && old(done) == 0 && OnlyCR(buff) then -1 else |buff|
      ensures !broken && !lost ==> G() == if buff == "" then old(G()) else AfterCall(answers, old(G()), buff)
      ensures broken || lost ==> rc == -1
      ensures !broken && !lost ==> Valid() && fed == old(fed) + buff
      ensures (whole ==> old(whole)) && (lost ==> stubs >= 2 && !whole)
    {
      hide Coded, After, OnlyCR, AfterCall, OverrunAt;
      var idx := 0;
      while idx < |buff|
        invariant idx == 0 || idx == |buff|
        invariant Valid() && fed == old(fed) + buff[..idx] && (whole ==> old(whole))
        invariant idx == 0 ==> done == old(done) && G() == old(G())
        invariant idx > 0 ==> !(old(done) == 0 && OnlyCR(buff)) && G() == AfterCall(answers, old(G()), buff)
        invariant idx > 0 ==> !Overruns(answers, old(G()), buff)
      {
        assert buff[0..] == buff;
        var n := WrapLine(buff[idx..]);
        if n < 0 {
          return -1;
        }
        idx := idx + n;
      }
      return idx;
    }

    /** add_data without a text: the end of the message. The dot does not go
        through the buffer, so it comes last exactly if nothing was left there. */
    method AddEnd() returns (rc: int)
      requires Valid()
      modifies this`done, this`mid, this`fed, this`sent, this`before, this`calls, this`whole, this`stubs, this`broken,
        this`lost, temp
      ensures (whole ==> old(whole)) && (lost ==> !whole) && (lost <==> old(mid) && old(done) + 2 > SIZE)
      ensures var total := old(before) + Coded(false, old(fed)) + Ending(After(false, old(fed)));
        && (!lost ==> (sent == total + DOT <==> done == 0 && rc == |DOT|))
        && (!broken && whole ==> sent == total + DOT)
      ensures !broken && whole ==> Valid() && before == sent && fed == ""
    {
      hide Coded, After, Ending;
      WrapEnd();
      ghost var total := before + Coded(false, fed) + Ending(After(false, fed));
      if !lost {
        InOrder(sent, temp[..done], total, answers(calls));
      }
      rc := if answers(calls) < |DOT| then answers(calls) else |DOT|;
      calls := calls + 1;
      broken, whole, stubs := broken || rc <= 0, whole && rc == |DOT|, stubs + if rc == 1 then 1 else 0;
      sent := sent + DotTaken(rc);
      before, fed := sent, "";
      CodedNone(false);
      assert temp[..0] == [];
    }

    /** The loop of smtp_mail over the lines of a text, and the end of the message. */
    method Mail(chunks: seq<string>) returns (ok: bool)
      requires Valid() && fed == "" && sent == before && whole
      modifies this`done, this`mid, this`fed, this`sent, this`before, this`calls, this`whole, this`stubs, this`broken,
        this`lost, temp
      ensures !broken && whole ==> (ok <==> forall i :: 0 <= i < |chunks| ==> chunks[i] == "" || !OnlyCR(chunks[i]))
      ensures !broken && whole && ok ==> Valid() && fed == "" && sent == before
      ensures !broken && whole && ok ==> var text := Joined(chunks);
        && sent == old(sent) + Coded(false, text) + Ending(After(false, text)) + ".\r\n"
        && Receive(sent[|old(sent)|..], true) == Received(Lines(text) + Ending(After(false, text)), "")
    {
      hide Coded, After, Receive, Lines, OnlyCR, Overruns;
      for i := 0 to |chunks|
        invariant Valid() && sent + temp[..done] == old(sent) + Coded(false, fed) && before == old(sent)
        invariant fed == Joined(chunks[..i])
        invariant whole ==> forall k :: 0 <= k < i ==> chunks[k] == "" || !OnlyCR(chunks[k])
      {
        assert chunks[..i + 1][..i] == chunks[..i];
        var rc := AddData(chunks[i]);
        if rc < 0 {
          return false;
        }
      }
      assert chunks[..|chunks|] == chunks;
      var _ := AddEnd();
      Transparent(false, Joined(chunks), "");
      ok := true;
      ghost var text := Joined(chunks);
      if !broken && whole {
        assert sent[|old(sent)|..] == Coded(false, text) + Ending(After(false, text)) + DOT + "";
      }
    }
  }
}
