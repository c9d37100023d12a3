/** Telnet input: commands are assembled in place, in the buffer that the bytes
    were read into, however the reads split them. */
module Telnet {
  type Byte = x: int | 0 <= x < 256

  // Commands of the TELNET protocol, RFC 854, and options of RFC 858 and RFC 860.
  const IAC: Byte := 255
  const DONT: Byte := 254
  const DO: Byte := 253
  const WONT: Byte := 252
  const WILL: Byte := 251
  const EL: Byte := 248
  const AYT: Byte := 246
  const IP: Byte := 244
  const OPT_SGA: Byte := 3
  const OPT_TM: Byte := 6

  const LF: Byte := 10
  const CR: Byte := 13
  const EOT: Byte := 4

  /** The size of the input buffer. */
  const SIZE := 1024

  // What comes between commands: nothing, IAC, an option nobody cares about, IAC DO.
  const TEXT := 0
  const GOT_IAC := 1
  const OPTION := 3
  const GOT_DO := 4

  predicate Known(state: int) {
    state == TEXT || state == GOT_IAC || state == OPTION || state == GOT_DO
  }

  datatype Reply = Here | WillTimingMark | WillSuppressGoAhead

  /** The state of a parser that takes one byte after the other. raw counts the
      bytes of the line so far, over tells whether a line filled the buffer that
      bytes had been dropped from. */
  datatype Scan = Scan(state: int, line: seq<Byte>, cmds: seq<seq<Byte>>, replies: seq<Reply>, raw: nat, quit: bool,
      over: bool)

  const START := Scan(TEXT, [], [], [], 0, false, false)

  predicate EndsLine(b: Byte) {
    b == LF || b == CR || b == EOT
  }

  /** Printing ASCII, and all of the upper half. */
  predicate Kept(b: Byte) {
    32 <= b < 127 || b > 127
  }

  /** A byte of a line; it does not end the line. */
  function Inner(s: Scan, b: Byte): Scan {
    var t := s.(raw := s.raw + 1);
    if s.state == TEXT then
      if b == IAC then t.(state := GOT_IAC)
      else if Kept(b) then t.(line := s.line + [b])
      else t
    else if s.state == GOT_IAC then
      if b == IAC then t.(state := TEXT, line := s.line + [b])
      else if b == IP then t.(quit := true)
      else if b == DO then t.(state := GOT_DO)
      else if b == WILL || b == DONT || b == WONT then t.(state := OPTION)
      else if b == AYT then t.(state := TEXT, replies := s.replies + [Here])
      else if b == EL then t.(state := TEXT, line := [])
      else t.(state := TEXT)
    else if s.state == GOT_DO then
      t.(state := TEXT, replies := s.replies + (
        if b == OPT_TM then [WillTimingMark] else if b == OPT_SGA then [WillSuppressGoAhead] else []))
    else t.(state := TEXT)
  }

  /** A line that fills the buffer is cut off, and loses its last byte. That works
      only if none of its bytes was dropped. */
  function CutOff(t: Scan): Scan {
    if t.raw < SIZE || t.quit then t
    else if |t.line| == SIZE then t.(cmds := t.cmds + [t.line[..SIZE - 1]], line := [], raw := 0)
    else t.(over := true)
  }

  function Step(s: Scan, b: Byte): Scan {
    if s.quit then s
    else if s.state == TEXT && EndsLine(b) then s.(cmds := s.cmds + [s.line], line := [], raw := 0)
    else CutOff(Inner(s, b))
  }

  function Run(s: Scan, bytes: seq<Byte>): Scan
    decreases |bytes|
  {
    if bytes == [] then s else Run(Step(s, bytes[0]), bytes[1..])
  }

  lemma {:induction false} RunTwice(s: Scan, a: seq<Byte>, b: seq<Byte>)
    ensures Run(s, a + b) == Run(Run(s, a), b)
    decreases |a|
  {
    if a == [] {
      assert a + b == b;
    } else {
      assert (a + b)[1..] == a[1..] + b;
      RunTwice(Step(s, a[0]), a[1..], b);
    }
  }

  /** A line that was too long stays so, and after an interrupt nothing happens. */
  lemma {:induction false} RunKeeps(s: Scan, bytes: seq<Byte>)
    ensures (s.quit ==> Run(s, bytes) == s) && (s.over ==> Run(s, bytes).over)
    decreases |bytes|
  {
    if bytes != [] {
      RunKeeps(Step(s, bytes[0]), bytes[1..]);
    }
  }

  function NonEmpty(cmds: seq<seq<Byte>>): seq<seq<Byte>> {
    if cmds == [] then []
    else NonEmpty(cmds[..|cmds| - 1]) + if cmds[|cmds| - 1] == [] then [] else [cmds[|cmds| - 1]]
  }

  lemma NonEmptyMore(cmds: seq<seq<Byte>>, c: seq<Byte>)
    ensures NonEmpty(cmds + [c]) == NonEmpty(cmds) + if c == [] then [] else [c]
  {
    assert (cmds + [c])[..|cmds|] == cmds;
  }

  /** The bytes up to the first zero byte. */
  function CString(s: seq<Byte>): seq<Byte> {
    if s == [] || s[0] == 0 then [] else [s[0]] + CString(s[1..])
  }

  /** Stopping at a zero byte or the end. */
  lemma CStringEnds(s: seq<Byte>, i: nat)
    requires i == |s| || (i < |s| && s[i] == 0)
    ensures CString(s[i..]) == []
  {
  }

  /** Going on to the next byte. */
  lemma CStringGoesOn(s: seq<Byte>, i: nat)
    requires i < |s| && s[i] != 0
    ensures s[..i] + CString(s[i..]) == s[..i + 1] + CString(s[i + 1..])
  {
    hide CString;
    CStringHead(s[i..]);
    assert s[i..][1..] == s[i + 1..];
    assert s[..i + 1] == s[..i] + [s[i]];
    assert s[..i] + ([s[i]] + CString(s[i + 1..])) == s[..i] + [s[i]] + CString(s[i + 1..]);
  }

  lemma CStringHead(s: seq<Byte>)
    requires s != [] && s[0] != 0
    ensures CString(s) == [s[0]] + CString(s[1..])
  {
  }

  lemma {:induction false} CStringIs(line: seq<Byte>, rest: seq<Byte>)
    requires 0 !in line && rest != [] && rest[0] == 0
    ensures CString(line + rest) == line
    decreases |line|
  {
    if line == [] {
      assert line + rest == rest;
    } else {
      assert (line + rest)[1..] == line[1..] + rest;
      CStringIs(line[1..], rest);
    }
  }

  lemma RunNone(s: Scan)
    ensures Run(s, []) == s
  {
  }

  lemma RunOne(s: Scan, a: Byte)
    ensures Run(s, [a]) == Step(s, a)
  {
  }

  lemma RunTwo(s: Scan, a: Byte, b: Byte)
    ensures Run(s, [a, b]) == Step(Step(s, a), b)
  {
    RunTwice(s, [a], [b]);
    assert [a] + [b] == [a, b];
  }

  lemma RunThree(s: Scan, a: Byte, b: Byte, c: Byte)
    ensures Run(s, [a, b, c]) == Step(Step(Step(s, a), b), c)
  {
    RunTwo(s, a, b);
    RunTwice(s, [a, b], [c]);
    assert [a, b] + [c] == [a, b, c];
  }

  /** Taking the next byte of a buffer. */
  lemma RunNext(s: Scan, buff: seq<Byte>, i: int, n: int)
    requires 0 <= i < n <= |buff|
    ensures Run(s, buff[i..n]) == Run(Step(s, buff[i]), buff[i + 1..n])
  {
    assert buff[i..n][1..] == buff[i + 1..n];
  }

  /** A byte that ends neither the line nor the connection. */
  lemma Inside(s: Scan, buff: seq<Byte>, i: int, n: int)
    requires 0 <= i < n <= |buff| && !s.quit && 0 !in s.line
    requires !(s.state == TEXT && EndsLine(buff[i])) && !(s.state == GOT_IAC && buff[i] == IP)
    ensures var t := Inner(s, buff[i]);
            && Run(CutOff(t), buff[i + 1..n]) == Run(s, buff[i..n])
            && t.raw == s.raw + 1 && !t.quit && t.cmds == s.cmds && t.over == s.over && 0 !in t.line
  {
    hide Run;
    RunNext(s, buff, i, n);
  }

  /** A byte that ends the line. */
  lemma AtEnd(s: Scan, buff: seq<Byte>, i: int, n: int)
    requires 0 <= i < n <= |buff| && !s.quit && s.state == TEXT && EndsLine(buff[i])
    ensures var t := Step(s, buff[i]);
            && t == s.(cmds := s.cmds + [s.line], line := [], raw := 0)
            && Run(t, buff[i + 1..n]) == Run(s, buff[i..n])
            && NonEmpty(t.cmds) == NonEmpty(s.cmds) + if s.line == [] then [] else [s.line]
  {
    hide Run, NonEmpty;
    RunNext(s, buff, i, n);
    NonEmptyMore(s.cmds, s.line);
  }

  /** The byte that closes the connection. */
  lemma AtInterrupt(s: Scan, buff: seq<Byte>, i: int, n: int)
    requires 0 <= i < n <= |buff| && !s.quit && s.state == GOT_IAC && buff[i] == IP
    ensures var r := Run(s, buff[i..n]); r.quit && r.cmds == s.cmds && r.replies == s.replies && r.over == s.over
  {
    hide Run;
    RunNext(s, buff, i, n);
    RunKeeps(Step(s, buff[i]), buff[i + 1..n]);
  }

  // What the parser makes of its input ---------------------------------------------------------

  /** Control characters do not count, but three of them end the line. */
  lemma ControlDropped(s: Scan, b: Byte)
    requires s.state == TEXT && !s.quit && s.raw + 1 < SIZE && (b < 32 || b == 127)
    ensures b != 4 && b != 10 && b != 13 ==> Run(s, [b]) == s.(raw := s.raw + 1)
    ensures b == 4 || b == 10 || b == 13 ==> Run(s, [b]) == s.(cmds := s.cmds + [s.line], line := [], raw := 0)
  {
    RunOne(s, b);
  }

  /** Option negotiations, IAC with WILL, WONT, DO or DONT, leave the line alone. Two
      of them are answered: to do a timing mark, and to suppress go-aheads. */
  lemma NegotiationDropped(s: Scan, verb: Byte, option: Byte)
    requires s.state == TEXT && !s.quit && s.raw + 3 < SIZE && 251 <= verb <= 254
    ensures var r, t := Run(s, [255, verb, option]), s.(raw := s.raw + 3);
            if verb == 253 && option == 6 then r == t.(replies := s.replies + [WillTimingMark])
            else if verb == 253 && option == 3 then r == t.(replies := s.replies + [WillSuppressGoAhead])
            else r == t
  {
    hide Run;
    RunThree(s, 255, verb, option);
    assert Step(s, 255) == s.(state := GOT_IAC, raw := s.raw + 1);
    assert Step(Step(s, 255), verb) == s.(state := if verb == 253 then GOT_DO else OPTION, raw := s.raw + 2);
    assert s.replies + [] == s.replies;
  }

  /** Of the other commands AYT is answered, EL discards the line so far, IP ends
      the connection, and the rest is left out. */
  lemma CommandDone(s: Scan, b: Byte)
    requires s.state == TEXT && !s.quit && s.raw + 2 < SIZE && b < 251
    ensures var r, t := Run(s, [255, b]), s.(raw := s.raw + 2);
            if b == 246 then r == t.(replies := s.replies + [Here])
            else if b == 248 then r == t.(line := [])
            else if b == 244 then r.quit && r.cmds == s.cmds && r.replies == s.replies
            else r == t
  {
    hide Run;
    RunTwo(s, 255, b);
    assert Step(s, 255) == s.(state := GOT_IAC, raw := s.raw + 1);
  }

  lemma EraseLine(s: Scan)
    requires s.state == TEXT && !s.quit && s.raw + 2 < SIZE
    ensures var r := Run(s, [255, 248]); r.state == TEXT && r.line == [] && r.cmds == s.cmds && !r.quit
  {
    CommandDone(s, 248);
  }

  /** What a client sends for a text: IAC is doubled. */
  function Quoted(text: seq<Byte>): seq<Byte> {
    if text == [] then [] else (if text[0] == 255 then [255, 255] else [text[0]]) + Quoted(text[1..])
  }

  /** A quoted text arrives as it was, if it fits into the buffer with the rest of the line. */
  lemma {:induction false} QuotedArrives(s: Scan, text: seq<Byte>)
    requires s.state == TEXT && !s.quit && s.raw + |Quoted(text)| < SIZE
    requires forall i :: 0 <= i < |text| ==> Kept(text[i])
    ensures var r := Run(s, Quoted(text)); r.state == TEXT && r.line == s.line + text && r.cmds == s.cmds && !r.quit
    ensures var r := Run(s, Quoted(text)); r.raw == s.raw + |Quoted(text)| && r.over == s.over
    decreases |text|
  {
    hide Run, NonEmpty, CString;
    RunNone(s);
    if text != [] {
      var b := text[0];
      var q := if b == IAC then [IAC, IAC] else [b];
      RunTwice(s, q, Quoted(text[1..]));
      RunOne(s, b);
      RunTwo(s, IAC, IAC);
      assert Run(s, q).line == s.line + [b];
      QuotedArrives(Run(s, q), text[1..]);
      assert s.line + text == s.line + [b] + text[1..];
    }
  }

  /** Printing ASCII, and all of the upper half, arrives as one command. */
  lemma LineRoundTrip(s: Scan, text: seq<Byte>)
    requires s.state == TEXT && !s.quit && s.line == [] && s.raw + |Quoted(text)| < SIZE
    requires forall i :: 0 <= i < |text| ==> 32 <= text[i] < 127 || text[i] > 127
    ensures var r := Run(s, Quoted(text) + [13, 10]);
            && r.state == TEXT && r.line == [] && r.cmds == s.cmds + [text] + [[]]
            && NonEmpty(r.cmds) == NonEmpty(s.cmds + [text])
  {
    hide Run, Quoted, NonEmpty;
    assert forall i :: 0 <= i < |text| ==> Kept(text[i]);
    QuotedArrives(s, text);
    var r := Run(s, Quoted(text));
    RunTwice(s, Quoted(text), [CR, LF]);
    RunTwo(r, CR, LF);
    assert r.line == text && Step(r, CR).cmds == s.cmds + [text];
    NonEmptyMore(s.cmds + [text], []);
  }

  /** A line of which nothing was dropped so far. */
  lemma {:induction false} AllKept(s: Scan, text: seq<Byte>)
    requires s.state == TEXT && !s.quit && s.raw + |text| < SIZE
    requires forall i :: 0 <= i < |text| ==> Kept(text[i]) && text[i] != IAC
    ensures Run(s, text) == s.(line := s.line + text, raw := s.raw + |text|)
    decreases |text|
  {
    hide Run;
    RunNone(s);
    if text != [] {
      RunTwice(s, [text[0]], text[1..]);
      assert [text[0]] + text[1..] == text;
      RunOne(s, text[0]);
      AllKept(Step(s, text[0]), text[1..]);
      assert s.line + text == s.line + [text[0]] + text[1..];
    } else {
      assert s.line + text == s.line;
    }
  }

  /** A line that fills the buffer, and of which a byte was dropped, is too much;
      without the dropped byte it is cut off. */
  lemma TooLong(text: seq<Byte>, b: Byte)
    requires |text| == 1022 && forall i :: 0 <= i < |text| ==> 32 <= text[i] < 127
    requires 32 <= b < 127
    ensures Run(START, [0] + text + [b]).over
    ensures !Run(START, [b] + text + [b]).over && Run(START, [b] + text + [b]).cmds == [[b] + text]
  {
    hide Run;
    RunTwice(START, [0] + text, [b]);
    RunTwice(START, [0], text);
    RunOne(START, 0);
    var s := Run(START, [0]);
    AllKept(s, text);
    RunOne(Run(s, text), b);
    assert s.raw == 1 && s.line == [];
    RunTwice(START, [b] + text, [b]);
    RunTwice(START, [b], text);
    RunOne(START, b);
    var u := Run(START, [b]);
    AllKept(u, text);
    RunOne(Run(u, text), b);
    assert u.raw == 1 && u.line == [b];
    assert ([b] + text + [b])[..SIZE - 1] == [b] + text;
  }

  // The connection ---------------------------------------------------------------------------------

  class Connection {
    const buff: array<Byte>
    var used: nat
    var end: nat
    var src: nat
    var dst: nat
    var state: int
    var replies: seq<Reply>
    ghost var fed: seq<Byte>
    ghost var delivered: seq<seq<Byte>>
    ghost var scan: Scan

    /** scan tells what was parsed so far; what is left in the buffer is all
        that was read since. */
    ghost predicate Told()
      reads this, buff
    {
      && buff.Length == SIZE && src <= used <= SIZE && dst <= src
      && Known(state) && scan.state == state && scan.replies == replies && !scan.quit && 0 !in scan.line
      && scan.raw < SIZE && !scan.over
      && Run(scan, buff[src..used]) == Run(START, fed)
    }

    /** No command is ready; what was parsed of the line stands at the start of
        the buffer. */
    ghost predicate Assembling()
      reads this, buff
    {
      && Told() && end == 0 && scan.line == buff[..dst] && scan.raw == src && (state != TEXT ==> dst < src)
      && NonEmpty(scan.cmds) == NonEmpty(delivered)
    }

    /** The parser stopped behind the command at the start of the buffer. */
    ghost predicate Stopped()
      reads this, buff
    {
      Told() && 0 < end == src == dst && state == TEXT && scan.line == [] && scan.raw == 0
    }

    /** A command is ready at the start of the buffer. */
    ghost predicate Ready()
      reads this, buff
    {
      Stopped() && NonEmpty(scan.cmds) == NonEmpty(delivered + [CString(buff[..end])])
    }

    ghost predicate Valid()
      reads this, buff
    {
      Ready() || (Assembling() && src == used < SIZE)
    }

    constructor ()
      ensures Valid() && fresh(buff) && fed == [] && delivered == [] && end == 0
    {
      buff := new Byte[SIZE](_ => 0);
      used, end, src, dst, state := 0, 0, 0, 0, TEXT;
      replies, fed, delivered, scan := [], [], [], START;
    }

    /** When no command is pending, the non-empty commands delivered and the
        replies sent are those of the one-pass parser, whatever the reads were. */
    lemma Idle()
      requires Valid() && end == 0
      ensures NonEmpty(delivered) == NonEmpty(Run(START, fed).cmds) && replies == Run(START, fed).replies
      ensures !Run(START, fed).quit && !Run(START, fed).over
    {
      assert buff[src..used] == [];
    }

    /** The line fills the buffer, but less of it was kept. Clearing it would take
        more from parse_dst, which is unsigned, than there is. */
    ghost predicate Overrun()
      reads this, buff
    {
      buff.Length == SIZE && end == SIZE && dst < end <= used && Run(START, fed).over
    }

    /** The user asked for an interrupt, and had every command before it. */
    ghost predicate Interrupted()
      reads this
    {
      && Run(START, fed).quit && !Run(START, fed).over && replies == Run(START, fed).replies
      && NonEmpty(delivered) == NonEmpty(Run(START, fed).cmds)
    }

    /** checkForCmd: parse what has not been parsed yet, up to the end of a line.
        Fails if the user asked for an interrupt. */
    method CheckForCmd() returns (ok: bool)
      requires Assembling()
      modifies this`end, this`src, this`dst, this`state, this`replies, this`scan, buff
      ensures ok ==> Valid() || Overrun()
      ensures !ok ==> Interrupted()
    {
      hide Run, NonEmpty, CString, Step;
      var d: nat, i: nat := dst, src;
      while i < used
        invariant buff.Length == SIZE && d <= i <= used <= SIZE && end == 0
        invariant Parsed(d, i) && (state != TEXT ==> d < i)
      {
        if state == TEXT && EndsLine(buff[i]) {
          EndLine(d, i);
          return true;
        }
        if state == GOT_IAC && buff[i] == IP {
          AtInterrupt(scan, buff[..], i, used);
          buff[i] := LF;
          return false;
        }
        d := TakeByte(d, i);
        i := i + 1;
      }
      src, dst := i, d;
      if used == SIZE {
        CutLine();
      }
      return true;
    }

    /** The line fills the buffer: it is cut off, which overwrites its last byte. */
    method CutLine()
      requires buff.Length == SIZE == used == src && dst <= src && end == 0
      requires Parsed(dst, SIZE) && (state != TEXT ==> dst < SIZE)
      modifies this`end, this`scan, buff
      ensures Ready() || Overrun()
    {
      hide NonEmpty, CString;
      ghost var line := scan.line;
      assert buff[SIZE..SIZE] == [];
      buff[SIZE - 1] := 0;
      end := SIZE;
      if dst == SIZE {
        NonEmptyMore(scan.cmds, line[..SIZE - 1]);
        NonEmptyMore(delivered, line[..SIZE - 1]);
        CStringIs(line[..SIZE - 1], [0]);
        assert buff[..end] == line[..SIZE - 1] + [0];
      }
      scan := CutOff(scan);
      assert buff[SIZE..SIZE] == [];
    }

    /** Everything before i was parsed, and the line so far is before d. */
    ghost predicate Parsed(d: nat, i: nat)
      requires d <= i <= used <= buff.Length
      reads this, buff
    {
      && Known(state) && scan.state == state && scan.replies == replies && !scan.quit && 0 !in scan.line
      && scan.raw == i <= SIZE && !scan.over
      && scan.line == buff[..d] && NonEmpty(scan.cmds) == NonEmpty(delivered)
      && Run(CutOff(scan), buff[i..used]) == Run(START, fed)
    }

    /** A byte that neither ends the line nor the connection. */
    method TakeByte(d0: nat, i: nat) returns (d: nat)
      requires buff.Length == SIZE && d0 <= i < used <= SIZE && Parsed(d0, i) && (state != TEXT ==> d0 < i)
      requires !(state == TEXT && EndsLine(buff[i])) && !(state == GOT_IAC && buff[i] == IP)
      modifies this`state, this`replies, this`scan, buff
      ensures d <= i + 1 && Parsed(d, i + 1) && (state != TEXT ==> d < i + 1)
    {
      hide Run, NonEmpty;
      ghost var was := buff[..];
      d := d0;
      var b := buff[i];
      Inside(scan, was, i, used);
      scan := Inner(scan, b);
      if state == TEXT {
        if b == IAC {
          state := GOT_IAC;
        } else if Kept(b) {
          buff[d] := b;
          d := d + 1;
        }
      } else if state == GOT_IAC {
        buff[i] := LF;
        state := TEXT;
        if b == IAC {
          buff[d] := b;
          d := d + 1;
        } else if b == DO {
          state := GOT_DO;
        } else if b == WILL || b == DONT || b == WONT {
          state := OPTION;
        } else if b == AYT {
          replies := replies + [Here];
        } else if b == EL {
          d := 0;
        }
      } else if state == OPTION {
        state := TEXT;
      } else if state == GOT_DO {
        if b == OPT_TM {
          replies := replies + [WillTimingMark];
        } else if b == OPT_SGA {
          replies := replies + [WillSuppressGoAhead];
        }
        state := TEXT;
      } else {
        assert false;
      }
      assert buff[i + 1..used] == was[i + 1..used];
      assert buff[..d0] == was[..d0];
      assert scan.line == buff[..d];
    }

    /** The end of a line: the command is terminated, and further line ends that
        are already there are skipped. */
    method EndLine(d: nat, i: nat)
      requires buff.Length == SIZE && d <= i < used <= SIZE && Parsed(d, i)
      requires end == 0 && state == TEXT && EndsLine(buff[i])
      modifies this`end, this`src, this`dst, this`scan, buff
      ensures Ready()
    {
      hide Run, NonEmpty, CString, Step;
      ghost var line := scan.line;
      AtEnd(scan, buff[..], i, used);
      NonEmptyMore(delivered, line);
      scan := Step(scan, buff[i]);
      buff[d] := 0;
      assert buff[..d] == line && buff[d] == 0;
      var j := i + 1;
      while j < used && (buff[j] == LF || buff[j] == CR)
        invariant i < j <= used
        invariant scan.state == TEXT && scan.replies == replies && !scan.quit
        invariant !scan.over && scan.line == [] && scan.raw == 0
        invariant NonEmpty(scan.cmds) == NonEmpty(delivered + [line])
        invariant Run(scan, buff[j..used]) == Run(START, fed)
        modifies this`scan
      {
        AtEnd(scan, buff[..], j, used);
        scan := Step(scan, buff[j]);
        j := j + 1;
      }
      end, src, dst := j, j, j;
      assert buff[..j] == line + buff[d..j] && buff[d..j][0] == 0;
      CStringIs(line, buff[d..j]);
    }

    /** The command that is ready, as process_input gets it. */
    method Command() returns (cmd: seq<Byte>)
      requires Ready() && end <= used
      ensures cmd == CString(buff[..end])
    {
      hide Run, NonEmpty, Step, CString, Inner, CutOff, Known;
      var i := 0;
      assert buff[..end][0..] == buff[..end];
      while i < end && buff[i] != 0
        invariant i <= end <= buff.Length
        invariant CString(buff[..end]) == buff[..end][..i] + CString(buff[..end][i..])
      {
        CStringGoesOn(buff[..end], i);
        i := i + 1;
      }
      CStringEnds(buff[..end], i);
      cmd := buff[..i];
    }

    /** The memmove of clearCmd. */
    method MoveDown()
      requires end <= used <= buff.Length
      modifies buff
      ensures buff[..used - end] == old(buff[end..used])
    {
      ghost var was := buff[..];
      var n := used - end;
      for i := 0 to n
        invariant forall k :: 0 <= k < i ==> buff[k] == was[k + end]
        invariant forall k :: i <= k < buff.Length ==> buff[k] == was[k]
      {
        buff[i] := buff[i + end];
      }
    }

    /** clearCmd, after the command was processed: move the rest down and parse on. */
    method ClearCmd() returns (ok: bool)
      requires Stopped() && NonEmpty(scan.cmds) == NonEmpty(delivered)
      modifies this`used, this`end, this`src, this`dst, this`state, this`replies, this`scan, buff
      ensures used < old(used)
      ensures ok ==> Valid() || Overrun()
      ensures !ok ==> Interrupted()
    {
      hide Run, NonEmpty, CString, Step;
      if end < used {
        MoveDown();
      }
      dst, src, used := dst - end, src - end, used - end;
      end := 0;
      assert buff[src..used] == old(buff[src..used]);
      ok := CheckForCmd();
    }

    /** One command is processed and cleared. */
    method Process() returns (ok: bool)
      requires Ready()
      modifies this`used, this`end, this`src, this`dst, this`state, this`replies, this`scan, this`delivered, buff
      ensures delivered == old(delivered + [CString(buff[..end])])
      ensures used < old(used)
      ensures ok ==> Valid() || Overrun()
      ensures !ok ==> Interrupted()
    {
      hide Run, NonEmpty, CString, Step;
      var cmd := Command();
      delivered := delivered + [cmd];
      ok := ClearCmd();
    }

    /** What read() does: data is put behind what is in the buffer. */
    method Fill(data: seq<Byte>)
      requires used + |data| <= buff.Length
      modifies buff
      ensures buff[..used] == old(buff[..used]) && buff[used..used + |data|] == data
    {
      for i := 0 to |data|
        invariant buff[..used] == old(buff[..used]) && buff[used..used + i] == data[..i]
      {
        buff[used + i] := data[i];
        assert buff[used..used + i + 1] == buff[used..used + i] + [data[i]];
        assert data[..i + 1] == data[..i] + [data[i]];
      }
    }

    static lemma Joined(buff: seq<Byte>, src: nat, used: nat, n: nat)
      requires src <= used <= n <= |buff|
      ensures buff[src..n] == buff[..used][src..] + buff[used..n]
    {
    }

    /** do_read, when data is what read() gave. */
    method DoRead(data: seq<Byte>) returns (ok: bool)
      requires Valid() && 0 < |data| <= SIZE - used
      modifies this`used, this`end, this`src, this`dst, this`state, this`replies, this`scan, this`fed, buff
      ensures fed == old(fed) + data
      ensures ok ==> Valid() || Overrun()
      ensures !ok ==> Interrupted()
    {
      hide Run, NonEmpty, CString, Step;
      Fill(data);
      Joined(buff[..], src, used, used + |data|);
      assert buff[..used][src..] == old(buff[..used])[src..] == old(buff[src..used]);
      assert buff[..used][..dst] == old(buff[..used])[..dst];
      assert buff[..end] == buff[..used][..end] == old(buff[..used])[..end] == old(buff[..end]);
      RunTwice(START, fed, data);
      RunTwice(scan, old(buff[src..used]), data);
      used := used + |data|;
      fed := fed + data;
      ok := true;
      if end == 0 {
        ok := CheckForCmd();
      }
    }

    /** One turn of net_select for this connection: at most two commands are
        processed, and at most one read is made, which may fail to come if there
        was a command to process. taken is how much of what the client sent the
        read gave. The turn is given up before a command is cleared that cannot
        be. Turns in which nothing happens are not told. */
    method Turn(input: seq<Byte>) returns (ok: bool, taken: nat)
      requires Valid()
      modifies this`used, this`end, this`src, this`dst, this`state, this`replies, this`scan, this`fed, this`delivered
      modifies buff
      ensures taken <= |input| && fed == old(fed) + input[..taken]
      ensures old(delivered) <= delivered
      ensures ok ==> Overrun() || (Valid() && (taken > 0 || (input == [] && old(end) == 0) || used < old(used)))
      ensures !ok ==> Interrupted()
    {
      hide Run, NonEmpty, CString, Step;
      ok, taken := true, 0;
      var ready := true;
      if end != 0 {
        ready := *;
        ok := Process();
        if !ok || dst < end {
          return;
        }
      }
      if input != [] && ready {
        taken :| 0 < taken <= |input| && taken <= SIZE - used;
        ok := DoRead(input[..taken]);
        if ok && end != 0 && dst == end {
          ok := Process();
        }
      }
    }

    /** However the reads split what a client sends, it gets the replies, and its
        commands are processed, as by the one-pass parser; it is disconnected
        exactly if it asked for an interrupt. The buffer is overrun exactly if
        the one-pass parser finds a line that fills it and lost a byte. */
    method Serve(input: seq<Byte>) returns (ok: bool, overrun: bool)
      requires Valid() && fed == [] && delivered == []
      modifies this`used, this`end, this`src, this`dst, this`state, this`replies, this`scan, this`fed, this`delivered
      modifies buff
      ensures overrun <==> Run(START, input).over
      ensures !overrun ==> NonEmpty(delivered) == NonEmpty(Run(START, input).cmds)
      ensures !overrun ==> replies == Run(START, input).replies
      ensures !overrun ==> (ok <==> !Run(START, input).quit)
    {
      hide Run, NonEmpty, CString, Step, Told, Assembling, Stopped;
      var rest := input;
      ok, overrun := true, false;
      assert fed + rest == input;
      while rest != [] || end != 0
        invariant Valid() && fed + rest == input && ok && !overrun
        decreases |rest|, used
      {
        ghost var before := fed;
        var taken;
        ok, taken := Turn(rest);
        assert before + rest == before + rest[..taken] + rest[taken..];
        rest := rest[taken..];
        RunTwice(START, fed, rest);
        RunKeeps(Run(START, fed), rest);
        if !ok {
          return;
        }
        Clearable();
        if dst < end {
          return true, true;
        }
      }
      assert fed == input;
      Idle();
    }

    /** A connection in good order can always be cleared. */
    lemma Clearable()
      ensures Valid() ==> end <= dst
    {
    }
  }
}
