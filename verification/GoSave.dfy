/** Games as text: what is written of a game, and how it is read again. */
module GoSave {
  import opened GoBoard
  import opened GoEngine
  import opened GoTally
  import opened GoPlay
  import opened GoStart
  import opened GoHistory
  import opened GoBorder
  import opened GoGame

  /** The largest board there is. */
  const MAX_SIDE := 25

  /** What is written: size, rules, handicap and the first n entries of the history. */
  datatype Sheet = Sheet(width: nat, height: nat, rules: int, handicap: int, moves: seq<MoveRec>, n: nat)

  ghost predicate Proper(s: Sheet) {
    s.n < |s.moves|
  }

  function Letter(k: int): char {
    if 0 <= k < 26 then ('a' as int + k) as char else '?'
  }

  function Number(c: char): int {
    c as int - 'a' as int
  }

  function LastDigit(n: nat): (c: char)
    ensures '0' <= c <= '9' && c as int - '0' as int == n % 10
  {
    ('0' as int + n % 10) as char
  }

  function Digits(n: nat): string {
    (if n < 10 then "" else Digits(n / 10)) + [LastDigit(n)]
  }

  function Decimal(n: int): string {
    if n < 0 then "-" + Digits(-n) else Digits(n)
  }

  function ColourLetter(i: nat): char {
    if i % 2 == 1 then 'B' else 'W'
  }

  /** The i-th entry. A handicap is written by its number only. */
  function EntryText(s: Sheet, i: nat): string
    requires i < |s.moves|
  {
    var p := s.moves[i].point;
    if p < PASS then (if s.rules == RULES_NET then [';', 'B', '[', 'z', Letter(s.handicap), ']'] else "")
    else if p == PASS then [';', ColourLetter(i), '[', 't', 't', ']']
    else [';', ColourLetter(i), '[', Letter(p % (s.width + 1) - 1), Letter(s.height - p / (s.width + 1)), ']']
  }

  /** What is written after i entries have been. */
  function TextFrom(s: Sheet, i: nat): string
    requires i <= s.n < |s.moves|
    decreases s.n - i
  {
    if i == s.n then (if s.n % 12 != 0 then "\n" else "")
    else EntryText(s, i + 1) + (if (i + 1) % 12 == 0 then "\n" else "") + TextFrom(s, i + 1)
  }

  function SavedText(s: Sheet): string
    requires s.n < |s.moves|
  {
    (if s.rules == RULES_ING && s.handicap != 0 then "HA[" + Decimal(s.handicap) + "]" else "") + TextFrom(s, 0)
  }

  /** What stands for an entry: the colour, which alternates from Black on, and the
      column and the row from the top as letters, tt for a pass, or z and the number
      of stones for a handicap. */
  lemma EntryWritten(s: Sheet, i: nat, x: nat, y: nat)
    requires i < |s.moves| && 1 <= x <= s.width <= 25 && 1 <= y <= s.height <= 25
    ensures var p, c := s.moves[i].point, if i % 2 == 1 then 'B' else 'W';
            && (p == y * (s.width + 1) + x ==>
                 var a, b := ('a' as int + x - 1) as char, ('a' as int + s.height - y) as char;
                 EntryText(s, i) == [';', c, '[', a, b, ']'])
            && (p == -1 ==> EntryText(s, i) == [';', c, '[', 't', 't', ']'])
            && (p < -1 && s.rules == RULES_NET && s.handicap < 26 && s.handicap >= 0 ==>
                 EntryText(s, i) == [';', 'B', '[', 'z', ('a' as int + s.handicap) as char, ']'])
  {
    var v, p := s.width + 1, s.moves[i].point;
    if p == y * v + x {
      ModSmall(v, y, x);
      var q := p / v;
      assert p == v * q + p % v;
      SamePoint(v, x, y, p % v, q);
    }
  }

  /** A line end follows each twelfth entry, and the last one. */
  lemma LinesOfTwelve(s: Sheet, i: nat)
    requires i < s.n < |s.moves|
    ensures TextFrom(s, i) == EntryText(s, i + 1) + (if (i + 1) % 12 == 0 || i + 1 == s.n then "\n" else "") +
      if i + 1 == s.n then "" else TextFrom(s, i + 1)
  {
    hide EntryText;
    var e := EntryText(s, i + 1);
    assert e + "\n" + "" == e + "\n" && e + "" + "\n" == e + "\n" + "";
  }

  /** Only the handicap of Ing rules is written before the entries, as a decimal number. */
  lemma TextBegins(s: Sheet)
    requires s.n < |s.moves|
    ensures s.rules != RULES_ING || s.handicap == 0 ==> SavedText(s) == TextFrom(s, 0)
    ensures s.rules == RULES_ING && s.handicap > 0 ==>
      exists d: string :: SavedText(s) == "HA[" + d + "]" + TextFrom(s, 0) && ValueOf(d) == s.handicap && d != ""
  {
    if s.rules == RULES_ING && s.handicap > 0 {
      DigitsTell(s.handicap);
      var d := Digits(s.handicap);
      hide TextFrom, Digits, ValueOf;
      assert SavedText(s) == "HA[" + d + "]" + TextFrom(s, 0);
    } else {
      assert "" + TextFrom(s, 0) == TextFrom(s, 0);
    }
  }

  /** The number that decimal digits stand for. */
  function ValueOf(t: string): int {
    if t == "" then 0 else 10 * ValueOf(t[..|t| - 1]) + (t[|t| - 1] as int - '0' as int)
  }

  lemma {:induction false} DigitsTell(n: nat)
    ensures ValueOf(Digits(n)) == n && Digits(n) != "" && (n > 0 ==> Digits(n)[0] != '0')
    ensures forall i :: 0 <= i < |Digits(n)| ==> '0' <= Digits(n)[i] <= '9'
    decreases n
  {
    hide ValueOf;
    var d, c := Digits(n), LastDigit(n);
    assert ValueOf("") == 0 by {
      ValueMore("", '0');
    }
    if n < 10 {
      assert d == "" + [c];
      ValueMore("", c);
    } else {
      DigitsTell(n / 10);
      assert d == Digits(n / 10) + [c];
      ValueMore(Digits(n / 10), c);
    }
  }

  lemma ValueMore(t: string, c: char)
    ensures ValueOf("") == 0 && ValueOf(t + [c]) == 10 * ValueOf(t) + (c as int - '0' as int)
  {
    assert (t + [c])[..|t|] == t;
  }

  // Reading ----------------------------------------------------------------------------------------

  predicate IsSpace(c: char) {
    c == ' ' || '\t' <= c <= '\r'
  }

  function SkipSpace(t: string): (r: string)
    ensures |r| <= |t|
  {
    if t != "" && IsSpace(t[0]) then SkipSpace(t[1..]) else t
  }

  datatype Scanned = NoMatch | Found(colour: char, x: char, y: char, rest: string)

  /** The next move of the text: the format "; %c [ %c %c ] ", if it gives all three. */
  function Scan(t: string): Scanned {
    if t == "" || t[0] != ';' then NoMatch
    else
      var t1 := SkipSpace(t[1..]);
      if t1 == "" then NoMatch
      else
        var t2 := SkipSpace(t1[1..]);
        if t2 == "" || t2[0] != '[' then NoMatch
        else
          var t3 := SkipSpace(t2[1..]);
          if t3 == "" then NoMatch
          else
            var t4 := SkipSpace(t3[1..]);
            if t4 == "" then NoMatch
            else
              var t5 := SkipSpace(t4[1..]);
              Found(t1[0], t3[0], t4[0], if t5 != "" && t5[0] == ']' then SkipSpace(t5[1..]) else t5)
  }

  /** The point of column x and row y on the board, as letters. */
  function PointOf(width: nat, height: nat, x: char, y: char): int {
    (height - Number(y)) * (width + 1) + (Number(x) + 1)
  }

  predicate OnGrid(width: nat, height: nat, p: int) {
    1 <= p % (width + 1) <= width && 1 <= p / (width + 1) <= height
  }

  /** The point that is written as a pass is: it is in column 20 and row 20,
      counted from the top. */
  predicate Ambiguous(width: nat, height: nat, p: int) {
    p % (width + 1) == 20 && height - p / (width + 1) == 19
  }

  lemma PointReadBack(width: nat, height: nat, p: int)
    requires width <= MAX_SIDE && height <= MAX_SIDE && OnGrid(width, height, p)
    ensures var x, y := Letter(p % (width + 1) - 1), Letter(height - p / (width + 1));
            && PointOf(width, height, x, y) == p && x != 'z' && !IsSpace(x) && !IsSpace(y)
            && (x == 't' && y == 't' <==> Ambiguous(width, height, p))
  {
    var v := width + 1;
    var q, r := p / v, p % v;
    assert p == v * q + r;
    assert Number(Letter(r - 1)) == r - 1 && Number(Letter(height - q)) == height - q;
  }

  /** What stands behind a line end. */
  lemma Behind(e: string, t: string)
    requires (e == "" || e == "\n") && (t == "" || t == "\n" || !IsSpace(t[0]))
    ensures SkipSpace(e + t) == if t == "\n" then "" else t
  {
    assert e == "" ==> e + t == t;
    assert e == "\n" ==> (e + t)[1..] == t && (e + t)[0] == '\n';
    assert t == "\n" ==> t[1..] == "";
  }

  lemma SkipNone(c: char, t: string)
    requires !IsSpace(c)
    ensures SkipSpace([c] + t) == [c] + t && ([c] + t)[0] == c && ([c] + t)[1..] == t
  {
  }

  lemma SixParts(c: char, x: char, y: char, rest: string)
    ensures [';', c, '[', x, y, ']'] + rest == [';'] + ([c] + (['['] + ([x] + ([y] + ([']'] + rest)))))
  {
  }

  lemma ScanSix(c: char, x: char, y: char, rest: string)
    requires !IsSpace(c) && !IsSpace(x) && !IsSpace(y)
    ensures Scan([';', c, '[', x, y, ']'] + rest) == Found(c, x, y, SkipSpace(rest))
  {
    hide SkipSpace;
    SixParts(c, x, y, rest);
    var t5 := [']'] + rest;
    var t4 := [y] + t5;
    var t3 := [x] + t4;
    var t2 := ['['] + t3;
    SkipNone(']', rest);
    SkipNone(y, t5);
    SkipNone(x, t4);
    SkipNone('[', t3);
    SkipNone(c, t2);
    SkipNone(';', [c] + t2);
  }

  /** Entry i can be written and read. */
  predicate Readable(s: Sheet, i: nat)
    requires i < |s.moves|
  {
    var p := s.moves[i].point;
    && (p >= 0 ==> OnGrid(s.width, s.height, p))
    && (p < PASS ==> i == 1 && s.rules == RULES_NET && 0 < s.handicap < 26)
  }

  /** What is left to read after i entries. */
  function Rest(s: Sheet, i: nat): string
    requires i <= s.n < |s.moves|
  {
    if i < s.n then TextFrom(s, i) else ""
  }

  lemma TextStarts(s: Sheet, i: nat)
    requires i < s.n < |s.moves| && Readable(s, i + 1)
    ensures TextFrom(s, i) != "" && TextFrom(s, i)[0] == ';'
  {
  }

  /** The letters stand for point p, or for a pass if p is the ambiguous point. */
  predicate Tells(s: Sheet, p: int, x: char, y: char) {
    && x != 'z' && PointOf(s.width, s.height, x, y) == p
    && (x == 't' && y == 't' <==> Ambiguous(s.width, s.height, p))
  }

  /** Entry i + 1 comes out as it went in. */
  ghost predicate Read(s: Sheet, i: nat)
    requires i < s.n < |s.moves|
  {
    var r := Scan(Rest(s, i)); var p := s.moves[i + 1].point;
    && r.Found? && r.colour == ColourLetter(i + 1) && r.rest == Rest(s, i + 1)
    && (p < PASS ==> r.x == 'z' && Number(r.y) == s.handicap && i == 0)
    && (p == PASS ==> r.x == r.y == 't')
    && (p >= 0 ==> Tells(s, p, r.x, r.y))
  }

  /** What the letters of an entry tell. */
  predicate Spells(s: Sheet, p: int, x: char, y: char) {
    && !IsSpace(x) && !IsSpace(y)
    && (p < PASS ==> x == 'z' && Number(y) == s.handicap)
    && (p == PASS ==> x == y == 't')
    && (p >= 0 ==> Tells(s, p, x, y))
  }

  lemma EntryIs(s: Sheet, i: nat)
    requires i < |s.moves| && s.width <= MAX_SIDE && s.height <= MAX_SIDE && Readable(s, i)
    ensures var t := EntryText(s, i);
            |t| == 6 && t == [';', ColourLetter(i), '[', t[3], t[4], ']'] && Spells(s, s.moves[i].point, t[3], t[4])
  {
    hide Ambiguous, PointOf;
    var p := s.moves[i].point;
    if p >= 0 {
      PointReadBack(s.width, s.height, p);
    }
  }

  /** Reading gives entry i + 1 as it was written. */
  lemma EntryRead(s: Sheet, i: nat)
    requires i < s.n < |s.moves| && s.width <= MAX_SIDE && s.height <= MAX_SIDE
    requires Readable(s, i + 1) && (i + 1 < s.n ==> Readable(s, i + 2))
    ensures Read(s, i)
  {
    hide Scan, SkipSpace, EntryText, Tells, Letter;
    var e := if (i + 1) % 12 == 0 then "\n" else "";
    var t := TextFrom(s, i + 1);
    if i + 1 < s.n {
      TextStarts(s, i + 1);
    }
    Behind(e, t);
    EntryIs(s, i + 1);
    var x := EntryText(s, i + 1);
    assert TextFrom(s, i) == x + (e + t);
    ScanSix(x[1], x[3], x[4], e + t);
  }

  // What a history says about its text ---------------------------------------------------------------

  ghost function TermsOf(e: Env, s: Sheet): Terms {
    Terms(e, s.rules, StartBoard(s.width, s.height), s.handicap, HandicapPoints(s.width, s.handicap))
  }

  lemma InnerOnGrid(width: nat, height: nat, p: nat)
    requires p < BoardSize(width, height) && !IsBorder(width, height, p)
    ensures OnGrid(width, height, p)
  {
    var v := width + 1;
    var q, r := p / v, p % v;
    assert p == v * q + r;
    if q > height {
      MulGap(v, height, q);
    }
  }

  /** Every entry of a game can be written and read. */
  lemma HistoryReadable(e: Env, s: Sheet, trail: seq<Pos>, i: nat)
    requires Proper(s) && History(TermsOf(e, s), trail, s.moves, s.n) && 0 < i <= s.n
    ensures Readable(s, i)
  {
    hide History, Move, Standing, Tallied, StarsFit, PlaceStars;
    var t := TermsOf(e, s);
    StepUndoes(t, trail, s.moves, s.n, i);
    if s.moves[i].point >= 0 {
      HistoryBordered(t, trail, s.moves, s.n, s.width, s.height, i - 1);
      InnerOnGrid(s.width, s.height, s.moves[i].point);
    } else if s.moves[i].point < PASS {
      HandicapKnown(t, trail, s.moves, s.n);
      StarsFew(s.width);
    }
  }

  lemma StarsFew(width: nat)
    ensures StarCount(width) < 26
  {
  }

  /** Two entries agree; what a pass entry, or the unused first one, says about
      captures is of no meaning. */
  ghost predicate SameEntry(m: MoveRec, m': MoveRec) {
    m.point == m'.point && m.ko == m'.ko && m.hash == m'.hash && (m.point != PASS && m.point != 0 ==> m == m')
  }

  ghost predicate SameTerms(t: Terms, t': Terms) {
    t'.e == t.e && t'.rules == t.rules && t'.start == t.start && (t.rules == RULES_ING ==> t'.handicap == t.handicap)
  }

  /** A move that was read is accepted, and recorded as it was. */
  lemma MoveReads(t: Terms, trail: seq<Pos>, moves: seq<MoveRec>, n: nat, t': Terms, k: nat, s': Pos, prev: MoveRec)
    requires History(t, trail, moves, n) && k < n && moves[k + 1].point >= 0 && SameTerms(t, t')
    requires Sound(t.e, s') && SameView(trail[k], s') && SameEntry(prev, moves[k])
    ensures CanMove(t'.e, s', moves[k + 1].point, ColourOf(k + 1)) && Open(t', s'.board, prev.ko, moves[k + 1].point, k)
    ensures var o := Move(t'.e, s', moves[k + 1].point, ColourOf(k + 1));
            && !SuicideBarred(t', o.self) && Entered(moves[k + 1].point, o) == moves[k + 1]
            && SameView(trail[k + 1], o.look.pos)
  {
    hide Move, Standing, Tallied;
    StepUndoes(t, trail, moves, n, k + 1);
    StepAgain(t, trail[k], trail[k + 1], moves[k], moves[k + 1], k, s');
  }

  lemma PassReads(t: Terms, trail: seq<Pos>, moves: seq<MoveRec>, n: nat, k: nat, prev: MoveRec, m: MoveRec)
    requires History(t, trail, moves, n) && k < n && moves[k + 1].point == PASS && SameEntry(prev, moves[k])
    requires m.point == PASS && m.ko == 0 && m.hash == prev.hash
    ensures trail[k + 1] == trail[k] && SameEntry(m, moves[k + 1])
  {
    assert Step(t, trail[k], trail[k + 1], moves[k], moves[k + 1], k);
  }

  /** A handicap that was read is set up as it was. */
  lemma HandicapReads(t: Terms, trail: seq<Pos>, moves: seq<MoveRec>, n: nat, now: seq<Pos>, ms: seq<MoveRec>)
    requires History(t, trail, moves, n) && n > 0 && moves[1].point < PASS
    requires History(t, now, ms, 1) && ms[1].point == moves[1].point
    ensures ms[1] == moves[1] && SameView(trail[1], now[1])
  {
    hide Move, PlaceStar, StarsFit, Standing, Tallied;
    StepUndoes(t, trail, moves, n, 1);
    StepUndoes(t, now, ms, 1, 1);
    HandicapKnown(t, trail, moves, n);
    StarsDetermined(t, trail[0], now[0], FIRST, FIRST, |t.stars|);
  }

  // Writing and reading ------------------------------------------------------------------------------

  /** One entry is written. */
  method WriteEntry(g: Game, i: nat, ghost s: Sheet) returns (text: string)
    requires i < |g.moves| && s == Sheet(g.width, g.height, g.rules, g.handicap, g.moves, g.movenr)
    ensures text == EntryText(s, i)
  {
    text := "";
    var p := g.moves[i].point;
    if p < -1 {
      if g.rules == RULES_NET {
        text := [';', 'B', '[', 'z', Letter(g.handicap), ']'];
      }
    } else {
      text := [';', ColourLetter(i), '['];
      if p == PASS {
        text := text + ['t', 't'];
      } else {
        text := text + [Letter(p % (g.width + 1) - 1), Letter(g.height - p / (g.width + 1))];
      }
      text := text + [']'];
    }
  }

  /** mink_savegame, without comments. */
  method SaveGame(g: Game) returns (text: string)
    requires g.Valid()
    ensures text == SavedText(Sheet(g.width, g.height, g.rules, g.handicap, g.moves, g.movenr))
  {
    hide Sound, Framed, Coloured, Decimal, EntryText, Digits, Bordered, TextFrom;
    ghost var s := Sheet(g.width, g.height, g.rules, g.handicap, g.moves, g.movenr);
    text := "";
    if g.rules == RULES_ING && g.handicap != 0 {
      text := "HA[" + Decimal(g.handicap) + "]";
    }
    var k, i := 0, 1;
    while i <= g.movenr
      invariant 1 <= i <= g.movenr + 1 && k == (i - 1) % 12
      invariant text + TextFrom(s, i - 1) == SavedText(s)
    {
      ghost var t0 := text;
      var e := WriteEntry(g, i, s);
      text := text + e;
      k := k + 1;
      if k == 12 {
        text := text + "\n";
        k := 0;
      }
      Written(s, i - 1, t0);
      i := i + 1;
    }
    if k != 0 {
      text := text + "\n";
    }
    WrittenAll(s);
  }

  lemma WrittenAll(s: Sheet)
    requires Proper(s)
    ensures TextFrom(s, s.n) == if s.n % 12 != 0 then "\n" else ""
  {
  }

  lemma Written(s: Sheet, i: nat, t: string)
    requires i < s.n < |s.moves|
    ensures var e := EntryText(s, i + 1);
            t + TextFrom(s, i) == (if (i + 1) % 12 == 0 then t + e + "\n" else t + e) + TextFrom(s, i + 1)
  {
  }

  /** On a board of 20 by 20 a move at the twentieth point of the last row is
      read as a pass. */
  lemma ReadAsPass(m: MoveRec)
    requires m.point == 41
    ensures var s := Sheet(20, 20, RULES_NET, 0, [FIRST, m], 1);
            OnGrid(20, 20, 41) && !Lossless(s) && Scan(SavedText(s)) == Found('B', 't', 't', "")
  {
    hide Scan, SkipSpace;
    var s := Sheet(20, 20, RULES_NET, 0, [FIRST, m], 1);
    assert s.moves[1] == m && Ambiguous(20, 20, 41);
    assert TextFrom(s, 1) == "\n";
    assert EntryText(s, 1) == [';', 'B', '[', 't', 't', ']'];
    assert SavedText(s) == [';', 'B', '[', 't', 't', ']'] + "\n";
    ScanSix('B', 't', 't', "\n");
    Behind("", "\n");
    assert "" + "\n" == "\n";
  }

  /** None of the first n moves is written like a pass. */
  ghost predicate Clear(s: Sheet, n: nat)
    requires n < |s.moves|
  {
    forall i {:trigger s.moves[i]} :: 1 <= i <= n && s.moves[i].point >= 0 ==>
      !Ambiguous(s.width, s.height, s.moves[i].point)
  }

  /** Everything that was written can be read as what it was. */
  ghost predicate Lossless(s: Sheet)
    requires s.n < |s.moves|
  {
    (s.rules == RULES_ING && s.handicap != 0 ==> s.n == 0) && Clear(s, s.n)
  }

  ghost predicate Reproduced(s: Sheet, moves: seq<MoveRec>, n: nat) {
    n < |moves| && n < |s.moves| && forall i {:trigger moves[i]} :: 0 <= i <= n ==> SameEntry(moves[i], s.moves[i])
  }

  /** Some move was read as a pass. */
  ghost predicate Mistaken(s: Sheet, moves: seq<MoveRec>, n: nat) {
    && n < |moves| && n < |s.moves|
    && exists i {:trigger moves[i]} :: 1 <= i <= n && s.moves[i].point >= 0 && moves[i].point == PASS
  }

  ghost predicate Fresh(g: Game, s: Sheet)
    reads g
  {
    g.width == s.width && g.height == s.height && g.rules == s.rules && s.width <= MAX_SIDE && s.height <= MAX_SIDE
  }

  /** The first i entries have been read. */
  ghost predicate Reading(g: Game, s: Sheet, trail: seq<Pos>, now: seq<Pos>, i: nat)
    reads g, g.board, g.uf
  {
    && Fresh(g, s) && g.Synced(now) && g.movenr == i && i <= s.n < |s.moves|
    && History(TermsOf(g.E(), s), trail, s.moves, s.n)
    && (s.rules == RULES_ING ==> s.handicap == 0)
    && g.handicap == (if i > 0 && s.moves[1].point < PASS then s.handicap else 0)
    && (Clear(s, i) ==> Reproduced(s, g.moves, i) && SameView(trail[i], g.Cur()))
    && (!Clear(s, i) ==> Mistaken(s, g.moves, i))
  }

  lemma ClearNext(s: Sheet, i: nat)
    requires i + 1 < |s.moves|
    ensures Clear(s, i + 1) <==>
      Clear(s, i) && (s.moves[i + 1].point >= 0 ==> !Ambiguous(s.width, s.height, s.moves[i + 1].point))
  {
  }

  /** One more entry in both histories. */
  lemma ReproducedNext(s: Sheet, moves: seq<MoveRec>, i: nat, m: MoveRec)
    requires i + 1 < |s.moves| && i < |moves|
    ensures Reproduced(s, moves, i) && SameEntry(m, s.moves[i + 1]) ==> Reproduced(s, Put(moves, i + 1, m), i + 1)
    ensures Mistaken(s, moves, i) || (s.moves[i + 1].point >= 0 && m.point == PASS) ==>
      Mistaken(s, Put(moves, i + 1, m), i + 1)
  {
    var moves' := Put(moves, i + 1, m);
    assert forall j :: 0 <= j <= i ==> moves'[j] == moves'[..i + 1][j] == moves[j];
    if Mistaken(s, moves, i) {
      var j :| 1 <= j <= i && s.moves[j].point >= 0 && moves[j].point == PASS;
      assert moves'[j].point == PASS;
    }
    assert moves'[i + 1] == m;
  }

  lemma MoveInside(e: Env, s: Sheet, trail: seq<Pos>, i: nat)
    requires Proper(s) && History(TermsOf(e, s), trail, s.moves, s.n) && i < s.n && s.moves[i + 1].point >= 0
    ensures s.moves[i + 1].point < BoardSize(s.width, s.height)
  {
    hide Move, Standing, Tallied, StarsFit, PlaceStars;
    StepUndoes(TermsOf(e, s), trail, s.moves, s.n, i + 1);
    HistoryBordered(TermsOf(e, s), trail, s.moves, s.n, s.width, s.height, i);
  }

  lemma HashRecorded(t: Terms, trail: seq<Pos>, moves: seq<MoveRec>, n: nat)
    requires History(t, trail, moves, n)
    ensures moves[n].hash == trail[n].hash && |trail| == n + 1
  {
    assert trail[n].hash == trail[n].hash;
  }

  method ReadHandicap(g: Game, n: nat, ghost s: Sheet, ghost trail: seq<Pos>, ghost now: seq<Pos>)
    returns (ghost next: seq<Pos>)
    requires Reading(g, s, trail, now, 0) && s.n > 0 && s.moves[1].point < PASS && n == s.handicap
    modifies g, g.board, g.uf
    ensures Reading(g, s, trail, next, 1)
  {
    hide Move, Standing, Tallied, Stars, StarsFit, Step, Starting, StarPoint, Framed, Coloured;
    HandicapKnown(TermsOf(g.E(), s), trail, s.moves, s.n);
    StarsWithinTable(s.width);
    ClearNext(s, 0);
    var _ := g.SetHandicap(n, now);
    next := now + [g.Cur()];
    HandicapReads(TermsOf(g.E(), s), trail, s.moves, s.n, next, g.moves);
    ReproducedNext(s, old(g.moves), 0, g.moves[1]);
  }

  method ReadPass(g: Game, ghost s: Sheet, ghost trail: seq<Pos>, ghost now: seq<Pos>, ghost i: nat)
    returns (ghost next: seq<Pos>)
    requires Reading(g, s, trail, now, i) && i < s.n && (i == 0 ==> s.moves[1].point >= PASS)
    requires s.moves[i + 1].point == PASS ||
      (s.moves[i + 1].point >= 0 && Ambiguous(s.width, s.height, s.moves[i + 1].point))
    modifies g, g.board, g.uf
    ensures Reading(g, s, trail, next, i + 1)
  {
    hide Move, Standing, Tallied, Step, Starting, Framed, Coloured, History, Sound;
    ClearNext(s, i);
    var _ := g.Pass(now);
    next := now + [g.Cur()];
    ReproducedNext(s, old(g.moves), i, g.moves[i + 1]);
    if Clear(s, i + 1) {
      PassReads(TermsOf(g.E(), s), trail, s.moves, s.n, i, old(g.moves)[i], g.moves[i + 1]);
    }
  }

  method ReadMove(g: Game, p: int, ghost s: Sheet, ghost trail: seq<Pos>, ghost now: seq<Pos>, ghost i: nat)
    returns (ok: bool, ghost next: seq<Pos>)
    requires Reading(g, s, trail, now, i) && i < s.n && p == s.moves[i + 1].point >= 0
    requires !Ambiguous(s.width, s.height, p)
    modifies g, g.board, g.uf
    ensures g.Synced(next)
    ensures ok ==> Reading(g, s, trail, next, i + 1)
    ensures !ok ==> !Clear(s, i) && g.movenr == i
  {
    hide Move, Standing, Tallied, Step, Starting, Framed, Coloured, History, Sound;
    ClearNext(s, i);
    MoveInside(g.E(), s, trail, i);
    HashRecorded(g.T(), now, g.moves, i);
    if Clear(s, i) {
      MoveReads(TermsOf(g.E(), s), trail, s.moves, s.n, g.T(), i, g.Cur(), g.moves[i]);
    }
    ok := g.Play(p, false, now);
    next := if ok then now + [g.Cur()] else now;
    if ok {
      ReproducedNext(s, old(g.moves), i, g.moves[i + 1]);
    }
  }

  lemma StartsAlike(t: Terms, trail: seq<Pos>, moves: seq<MoveRec>, n: nat, t': Terms, s': Pos, moves': seq<MoveRec>)
    requires History(t, trail, moves, n) && History(t', [s'], moves', 0) && t'.start == t.start
    ensures SameView(trail[0], s') && SameEntry(moves'[0], moves[0])
  {
  }

  /** What the next reading gives: an entry, or nothing at the end and before an Ing handicap. */
  lemma NextRead(e: Env, s: Sheet, trail: seq<Pos>, i: nat)
    requires Proper(s) && s.width <= MAX_SIDE && s.height <= MAX_SIDE && i <= s.n
    requires History(TermsOf(e, s), trail, s.moves, s.n)
    ensures s.rules == RULES_ING && s.handicap != 0 ==> Scan(SavedText(s)).NoMatch?
    ensures i == s.n ==> Scan(Rest(s, i)).NoMatch?
    ensures !(s.rules == RULES_ING && s.handicap != 0) ==>
      SavedText(s) == TextFrom(s, 0) && (s.n == 0 ==> SavedText(s) == "")
    ensures i < s.n ==> Read(s, i)
  {
    hide History, EntryText, SkipSpace, Decimal;
    if i < s.n {
      HistoryReadable(e, s, trail, i + 1);
      if i + 1 < s.n {
        HistoryReadable(e, s, trail, i + 2);
      }
      EntryRead(s, i);
    }
  }

  /** What is read is done; it fails only behind a mistake. */
  method ReadEntry(g: Game, r: Scanned, ghost s: Sheet, ghost trail: seq<Pos>, ghost now: seq<Pos>, ghost i: nat)
    returns (ok: bool, ghost next: seq<Pos>)
    requires Reading(g, s, trail, now, i) && i < s.n && Readable(s, i + 1) && Read(s, i) && r == Scan(Rest(s, i))
    modifies g, g.board, g.uf
    ensures g.Synced(next)
    ensures ok ==> Reading(g, s, trail, next, i + 1)
    ensures !ok ==> !Clear(s, i) && g.movenr == i
  {
    hide Move, Standing, Tallied, Step, Starting, Framed, Coloured, History, Sound, Scan, TextFrom, Reproduced,
      Mistaken, SameView;
    ok, next := r.colour == ColourLetter(g.movenr + 1), now;
    if !ok {
      return;
    }
    if r.x == 'z' {
      next := ReadHandicap(g, Number(r.y), s, trail, now);
    } else if r.x == 't' && r.y == 't' {
      next := ReadPass(g, s, trail, now, i);
    } else {
      ok, next := ReadMove(g, PointOf(g.width, g.height, r.x, r.y), s, trail, now, i);
    }
  }

  lemma ClearUpTo(s: Sheet, i: nat)
    requires Proper(s) && i <= s.n
    ensures !Clear(s, i) ==> !Lossless(s)
  {
  }

  lemma LoadStarts(g: Game, s: Sheet, trail: seq<Pos>, now: seq<Pos>)
    requires Fresh(g, s) && g.Synced([g.Cur()]) && g.movenr == 0 && g.handicap == 0 && now == [g.Cur()]
    requires Proper(s) && History(TermsOf(g.E(), s), trail, s.moves, s.n)
    ensures Loading(g, s, trail, now, 0, SavedText(s))
  {
    hide Move, Standing, Tallied, Step, Starting, Framed, Coloured, Sound, Scan, TextFrom, SameView, Readable,
      SavedText, Read;
    hide History;
    StartsAlike(TermsOf(g.E(), s), trail, s.moves, s.n, g.T(), g.Cur(), g.moves);
    NextRead(g.E(), s, trail, 0);
  }

  /** When there is nothing more to read, the game is the one that was written,
      or a move was mistaken for a pass, or nothing was read. */
  lemma LoadEnds(g: Game, s: Sheet, trail: seq<Pos>, now: seq<Pos>, i: nat, rest: string)
    requires Proper(s) && Loading(g, s, trail, now, i, rest) && Scan(rest).NoMatch?
    requires i < s.n && !(s.rules == RULES_ING && s.handicap != 0) ==> Read(s, i)
    ensures (g.movenr == s.n && Reproduced(s, g.moves, s.n)) <==> Lossless(s)
    ensures Lossless(s) ==> SameView(trail[s.n], g.Cur()) && g.movenr == s.n
  {
    hide Move, Standing, Tallied, Step, Starting, Framed, Coloured, History, Sound, Scan, TextFrom, SameView, Readable,
      SavedText;
    if s.rules == RULES_ING && s.handicap != 0 && s.n == 0 {
      assert Clear(s, 0);
    }
  }

  /** mink_loadgame, of the text of a game s, into a fresh game. The moves are
      reproduced exactly if none was written like a pass and there was no Ing
      handicap; then so are the board, the hash and the captures. */
  method LoadGame(g: Game, text: string, ghost s: Sheet, ghost trail: seq<Pos>)
    returns (toMove: int, ghost now: seq<Pos>)
    requires Fresh(g, s) && g.Synced([g.Cur()]) && g.movenr == 0 && g.handicap == 0
    requires Proper(s) && History(TermsOf(g.E(), s), trail, s.moves, s.n) && text == SavedText(s)
    modifies g, g.board, g.uf
    ensures g.Synced(now)
    ensures (g.movenr == s.n && Reproduced(s, g.moves, s.n)) <==> Lossless(s)
    ensures Lossless(s) ==> SameView(trail[s.n], g.Cur()) && toMove == if s.n % 2 == 0 then BLACK else WHITE
  {
    hide Move, Standing, Tallied, Step, Starting, Framed, Coloured, History, Sound, Scan, TextFrom, SavedText, SameView,
      Readable, Reproduced, Mistaken, Clear, Lossless;
    now := [g.Cur()];
    LoadStarts(g, s, trail, now);
    var rest := text;
    ghost var i := 0;
    NextRead(g.E(), s, trail, 0);
    while true
      invariant Loading(g, s, trail, now, i, rest)
      decreases s.n - i
    {
      NextRead(g.E(), s, trail, i);
      var r := Scan(rest);
      if r.NoMatch? {
        LoadEnds(g, s, trail, now, i, rest);
        break;
      }
      if i < s.n {
        HistoryReadable(g.E(), s, trail, i + 1);
      }
      var ok;
      ok, now := ReadEntry(g, r, s, trail, now, i);
      if !ok {
        ClearUpTo(s, i);
        toMove := 0;
        return;
      }
      i := i + 1;
      rest := r.rest;
    }
    toMove := if g.movenr % 2 == 1 then WHITE else BLACK;
  }

  /** Where the loop of the reader stands; before an Ing handicap it does not start. */
  ghost predicate Loading(g: Game, s: Sheet, trail: seq<Pos>, now: seq<Pos>, i: nat, rest: string)
    requires Proper(s)
    reads g, g.board, g.uf
  {
    && i <= s.n && History(TermsOf(g.E(), s), trail, s.moves, s.n) && Fresh(g, s)
    && if s.rules == RULES_ING && s.handicap != 0 then
      rest == SavedText(s) && g.Synced(now) && g.movenr == 0 && SameView(trail[0], g.Cur()) && Reproduced(s, g.moves, 0)
    else Reading(g, s, trail, now, i) && rest == Rest(s, i)
  }
}
