/** The allocator itself: memory and the table of free lists changed in place. */
module Allocator {
  import opened HeapBlocks
  import opened HeapBins

  /** One more than the largest word, and the largest request that thirty-two bits
      can serve; see RequestsExactly. */
  const WORDS := 0x1_0000_0000
  const MAX_REQUEST := 0x8000_0000 - 12

  function Round(x: nat, y: nat): nat
    requires y > 0
  {
    if x % y != 0 then x + (y - x % y) else x
  }

  /** The block size in words for a user size in bytes. */
  function RealSize(s: nat): nat {
    var r := Round(WORD * ALIGN + s + WORD, WORD * ALIGN);
    (if r < WORD * MIN_BLOCK then WORD * MIN_BLOCK else r) / WORD
  }

  /** The words asked for as a buffer. */
  function BufferSize(s: nat): nat {
    if s == 0 then 0 else RealSize(s)
  }

  /** The size is the smallest aligned one, from four words on, that leaves room for
      the user's bytes next to two words before and one behind them. */
  lemma RealSizeFits(s: nat)
    ensures var n := RealSize(s); n >= 4 && n % 2 == 0 && 4 * (n - 3) >= s && (n > 4 ==> 4 * (n - 5) < s)
  {
  }

  // In thirty-two bits ---------------------------------------------------------------------

  function Round32(x: nat, y: nat): nat
    requires y > 0
  {
    if x % y != 0 then (x + (y - x % y)) % WORDS else x
  }

  /** The block size in bytes, computed in words that wrap around. */
  function RealSize32(s: nat): nat {
    var r := Round32((WORD * ALIGN + s + WORD) % WORDS, WORD * ALIGN);
    if r < WORD * MIN_BLOCK then WORD * MIN_BLOCK else r
  }

  function Twice32(x: nat): nat {
    2 * x % WORDS
  }

  lemma TwiceIs(x: nat)
    ensures 2 * x < WORDS ==> Twice32(x) == 2 * x
    ensures 2 * x == WORDS ==> Twice32(x) == 0
    ensures x == 0 ==> Twice32(x) == 0
  {
  }

  /** The chunk of memory asked for, after k doublings. */
  function Doubled32(k: nat): nat {
    if k == 0 then 4096 else Twice32(Doubled32(k - 1))
  }

  lemma {:induction false} PowGrows(a: nat, b: nat)
    requires a <= b
    ensures Pow2(a) <= Pow2(b)
    decreases b
  {
    if a < b {
      PowGrows(a, b - 1);
    }
  }

  lemma PowNext(n: nat)
    ensures Pow2(n + 1) == 2 * Pow2(n)
  {
  }

  lemma PowersHere()
    ensures Pow2(0) == 1 && Pow2(12) == 4096 && Pow2(31) == 0x8000_0000
  {
    assert Pow2(4) == 16 && Pow2(8) == 256;
    assert Pow2(16) == 65536;
    assert Pow2(20) == 0x10_0000 && Pow2(24) == 0x100_0000 && Pow2(28) == 0x1000_0000;
  }

  lemma {:induction false} DoubledIs(k: nat)
    ensures Doubled32(k) == if k <= 19 then Pow2(12 + k) else 0
  {
    hide Pow2, Twice32;
    PowersHere();
    if k > 0 {
      DoubledIs(k - 1);
      TwiceIs(Doubled32(k - 1));
      PowNext(11 + k);
      if k <= 19 {
        PowGrows(12 + k, 31);
      }
    }
  }

  /** Doubling ever gives n bytes exactly for n up to two to the thirty-first. */
  lemma DoublingEnds(n: nat)
    ensures (exists k: nat :: Doubled32(k) >= n) <==> n <= 0x8000_0000
  {
    PowersHere();
    DoubledIs(19);
    forall k: nat
      ensures Doubled32(k) <= 0x8000_0000
    {
      DoubledIs(k);
      if k <= 19 {
        PowGrows(12 + k, 31);
      }
    }
  }

  lemma RoundIs(x: nat)
    ensures x <= Round(x, 8) < x + 8 && Round(x, 8) % 8 == 0
    ensures x <= WORDS - 8 ==> Round32(x, 8) == Round(x, 8)
    ensures WORDS - 8 < x < WORDS ==> Round32(x, 8) == 0
  {
    var q := x / 8;
    assert x == 8 * q + x % 8;
    if x % 8 != 0 {
      assert Round(x, 8) == 8 * (q + 1);
    }
  }

  lemma Quarters(r: nat)
    requires r % 8 == 0
    ensures 4 * (r / 4) == r
  {
  }

  /** Thirty-two bits compute the size as intended, or the smallest size of all. */
  lemma RealSizeWraps(s: nat)
    requires s < WORDS
    ensures s <= WORDS - 20 ==>
      RealSize32(s) == WORD * RealSize(s) && s + 12 <= RealSize32(s) < s + 20 && RealSize32(s) % 8 == 0
    ensures s > WORDS - 20 ==> RealSize32(s) == WORD * MIN_BLOCK
  {
    hide Round, Round32;
    if s <= WORDS - 20 {
      assert (s + 12) % WORDS == s + 12;
      RoundIs(s + 12);
      Quarters(Round(s + 12, 8));
    } else if s < WORDS - 12 {
      assert (s + 12) % WORDS == s + 12;
      RoundIs(s + 12);
    } else {
      assert (s + 12) % WORDS == s + 12 - WORDS;
      RoundIs(s + 12 - WORDS);
    }
  }

  /** A request of up to MAX_REQUEST bytes, and no other, gets a size that leaves
      room for it and a search for memory that ends. */
  lemma RequestsExactly(s: nat)
    requires s < WORDS
    ensures RealSize32(s) >= WORD * ALIGN + s + WORD <==> s <= WORDS - 20
    ensures s <= WORDS - 20 ==> RealSize32(s) == WORD * RealSize(s)
    ensures s <= MAX_REQUEST <==>
      RealSize32(s) >= WORD * ALIGN + s + WORD && exists k: nat :: Doubled32(k) >= RealSize32(s)
  {
    hide Doubled32, RealSize32, RealSize;
    RealSizeWraps(s);
    DoublingEnds(RealSize32(s));
  }

  // Searching the free lists -------------------------------------------------------------

  function FitIn(m: Words, l: seq<int>, n: int, k: nat): int
    decreases |l| - k
  {
    if k >= |l| then NULL
    else if 0 <= l[k] < |m| && n <= Size(m[l[k]]) then l[k]
    else FitIn(m, l, n, k + 1)
  }

  function FirstFit(m: Words, L: seq<seq<int>>, n: int, i: nat): int
    decreases |L| - i
  {
    if i >= |L| then NULL
    else
      var b := FitIn(m, L[i], n, 0);
      if b != NULL then b else FirstFit(m, L, n, i + 1)
  }

  /** The free block that is taken for n words. */
  function FindFit(m: Words, L: seq<seq<int>>, n: nat): int {
    FirstFit(m, L, n, Log2(WORD * n))
  }

  lemma {:induction false} FitInIs(m: Words, S: set<int>, l: seq<int>, n: int, k: nat, i: nat)
    requires k <= |l| && forall j {:trigger l[j]} :: 0 <= j < |l| ==> Filed(m, S, l[j], i)
    ensures var b := FitIn(m, l, n, k);
            if b != NULL then b in l && 0 <= b < |m| && n <= Size(m[b])
            else forall j {:trigger l[j]} :: k <= j < |l| ==> 0 <= l[j] < |m| && Size(m[l[j]]) < n
    decreases |l| - k
  {
    hide Log2;
    if k < |l| && !(n <= Size(m[l[k]])) {
      FitInIs(m, S, l, n, k + 1, i);
    }
  }

  lemma {:induction false} FirstFitIs(m: Words, table: seq<int>, S: set<int>, L: seq<seq<int>>, n: int, i: nat)
    requires Listed(m, table, S, L) && i <= BINS
    ensures var b := FirstFit(m, L, n, i);
            if b != NULL then b in S && 0 <= b < |m| && IsFree(m[b]) && n <= Size(m[b])
            else forall j, k {:trigger L[j][k]} :: i <= j < BINS && 0 <= k < |L[j]| ==>
              0 <= L[j][k] < |m| && Size(m[L[j][k]]) < n
    decreases BINS - i
  {
    hide Log2, Chain, Findable;
    if i < BINS {
      var l := L[i];
      forall j | 0 <= j < |l|
        ensures Filed(m, S, l[j], i)
      {
        assert Filed(m, S, L[i][j], i);
      }
      FitInIs(m, S, l, n, 0, i);
      var b := FitIn(m, l, n, 0);
      if b == NULL {
        FirstFitIs(m, table, S, L, n, i + 1);
      } else {
        var k :| 0 <= k < |l| && l[k] == b;
      }
    }
  }

  /** A free block is found if and only if there is one that is large enough. */
  lemma FindFitIs(m: Words, table: seq<int>, top: int, S: set<int>, L: seq<seq<int>>, n: nat)
    requires Heap(m, table, top, S, L) && n > 0
    ensures var b := FindFit(m, L, n);
            if b != NULL then b in S && BASE <= b < |m| && IsFree(m[b]) && n <= Size(m[b])
            else forall a {:trigger a in S} :: a in S && IsFree(m[a]) ==> Size(m[a]) < n
  {
    hide Log2, Chain, Block, Follows, FirstFit, WordOk;
    if Log2(WORD * n) <= BINS {
      FirstFitIs(m, table, S, L, n, Log2(WORD * n));
    } else {
      assert FindFit(m, L, n) == NULL by {
        NoFitBeyond(m, L, n);
      }
    }
    if FindFit(m, L, n) == NULL {
      forall a | a in S && IsFree(m[a])
        ensures Size(m[a]) < n
      {
        SmallOnly(m, table, top, S, L, n, a);
      }
    }
  }

  /** Nothing that the search looked at before was large enough. */
  lemma {:induction false} FitInFirst(m: Words, l: seq<int>, n: int, k: nat) returns (j: nat)
    requires k <= |l| && FitIn(m, l, n, k) != NULL
    ensures k <= j < |l| && l[j] == FitIn(m, l, n, k)
    ensures forall i {:trigger l[i]} :: k <= i < j ==> !(0 <= l[i] < |m| && n <= Size(m[l[i]]))
    decreases |l| - k
  {
    hide Size;
    j := k;
    if !(0 <= l[k] < |m| && n <= Size(m[l[k]])) {
      j := FitInFirst(m, l, n, k + 1);
    }
  }

  lemma {:induction false} FirstFitFirst(m: Words, table: seq<int>, S: set<int>, L: seq<seq<int>>, n: int, i: nat)
    returns (j: nat, k: nat)
    requires Listed(m, table, S, L) && i <= BINS && FirstFit(m, L, n, i) != NULL
    ensures i <= j < BINS && k < |L[j]| && L[j][k] == FirstFit(m, L, n, i)
    ensures forall x {:trigger L[j][x]} :: 0 <= x < k ==> !(0 <= L[j][x] < |m| && n <= Size(m[L[j][x]]))
    ensures forall y, x {:trigger L[y][x]} :: i <= y < j && 0 <= x < |L[y]| ==>
      0 <= L[y][x] < |m| && Size(m[L[y][x]]) < n
    decreases BINS - i
  {
    hide Log2, Chain, Findable, Size, FitIn;
    if FitIn(m, L[i], n, 0) != NULL {
      j := i;
      k := FitInFirst(m, L[i], n, 0);
    } else {
      j, k := FirstFitFirst(m, table, S, L, n, i + 1);
      forall x | 0 <= x < |L[i]|
        ensures Filed(m, S, L[i][x], i)
      {
      }
      FitInIs(m, S, L[i], n, 0, i);
    }
  }

  /** What is found is the first that is large enough in the lowest list that has one. */
  lemma FindFitFirst(m: Words, table: seq<int>, top: int, S: set<int>, L: seq<seq<int>>, n: nat) returns (k: nat)
    requires Heap(m, table, top, S, L) && n > 0 && FindFit(m, L, n) != NULL
    ensures var b := FindFit(m, L, n);
            && b in S && 0 <= b < |m| && IsFree(m[b]) && 0 <= m[b] && Log2(m[b]) < BINS
            && k < |L[Log2(m[b])]| && L[Log2(m[b])][k] == b
            && (forall x {:trigger L[Log2(m[b])][x]} :: 0 <= x < k ==> Size(m[L[Log2(m[b])][x]]) < n)
            && forall a {:trigger a in S} :: a in S && IsFree(m[a]) && Size(m[a]) >= n ==>
              0 <= m[a] && Log2(m[b]) <= Log2(m[a])
  {
    hide Log2, Chain, Block, Follows, FirstFit, WordOk, Size;
    var i := Log2(WORD * n);
    assert i < BINS by {
      if i > |L| {
        NoFitBeyond(m, L, n);
      }
      FirstFitEnds(m, L, n, BINS);
    }
    var j;
    j, k := FirstFitFirst(m, table, S, L, n, i);
    assert Filed(m, S, L[j][k], j);
    forall x | 0 <= x < k
      ensures Size(m[L[j][x]]) < n
    {
      assert Filed(m, S, L[j][x], j);
    }
    forall a | a in S && IsFree(m[a]) && Size(m[a]) >= n
      ensures 0 <= m[a] && j <= Log2(m[a])
    {
      assert Findable(m, L, a);
      BinReaches(m, top, S, a, n);
      var l := L[Log2(m[a])];
      var x :| 0 <= x < |l| && l[x] == a;
      assert L[Log2(m[a])][x] == a;
    }
  }

  lemma FirstFitEnds(m: Words, L: seq<seq<int>>, n: int, i: nat)
    requires i >= |L|
    ensures FirstFit(m, L, n, i) == NULL
  {
  }

  lemma BinReaches(m: Words, top: int, S: set<int>, a: int, n: nat)
    requires Tiled(m, top, S) && a in S && IsFree(m[a]) && 0 < n <= Size(m[a]) && m[a] >= 0
    ensures Log2(WORD * n) <= Log2(m[a])
  {
    hide Log2, Follows;
    assert Block(m, top, S, a);
    Log2Monotone(WORD * n, m[a]);
  }

  lemma NoFitBeyond(m: Words, L: seq<seq<int>>, n: nat)
    requires Log2(WORD * n) > |L|
    ensures FindFit(m, L, n) == NULL
  {
    hide Log2;
  }

  /** The list for a block holds it, and lies among the searched ones if the
      block is large enough. */
  lemma SmallOnly(m: Words, table: seq<int>, top: int, S: set<int>, L: seq<seq<int>>, n: nat, a: int)
    requires Heap(m, table, top, S, L) && a in S && IsFree(m[a])
    requires Log2(WORD * n) <= BINS ==>
      forall j, k {:trigger L[j][k]} :: Log2(WORD * n) <= j < BINS && 0 <= k < |L[j]| ==>
        0 <= L[j][k] < |m| && Size(m[L[j][k]]) < n
    ensures Size(m[a]) < n
  {
    hide Log2, Chain, Follows;
    assert Findable(m, L, a) && Block(m, top, S, a);
    if n <= Size(m[a]) {
      Log2Monotone(WORD * n, m[a]);
    }
    var l := L[Log2(m[a])];
    var k :| 0 <= k < |l| && l[k] == a;
  }

  // Where a block can grow ---------------------------------------------------------------

  datatype Spot = Nothing | Upper(b: int) | Lower(b: int) | Another(b: int)

  /** What find_realloc_block finds for the block at b to grow to n words. */
  function ReallocSpot(m: Words, memTop: int, L: seq<seq<int>>, b: int, n: nat): Spot
    requires BASE <= b < |m| && memTop <= |m| && 0 <= Size(m[b])
  {
    var s := n - Size(m[b]);
    var b1 := b + Size(m[b]);
    if b1 < memTop && IsFree(m[b1]) && Size(m[b1]) >= s then Upper(b1)
    else if b - 1 > BASE && IsFree(m[b - 1]) && Size(m[b - 1]) >= s then Lower(b - Size(m[b - 1]))
    else
      var f := FindFit(m, L, n);
      if f != NULL then Another(f) else Nothing
  }

  /** The block above b is free and has s words or more. */
  ghost predicate UpperFree(m: Words, S: set<int>, b: int, s: int) {
    0 <= b < |m| && var c := b + Size(m[b]); c in S && 0 <= c < |m| && IsFree(m[c]) && Size(m[c]) >= s
  }

  /** The block at c is the one below b, is free and has s words or more. */
  ghost predicate LowerAt(m: Words, S: set<int>, b: int, s: int, c: int) {
    c in S && 0 <= c < |m| && IsFree(m[c]) && c + Size(m[c]) == b && Size(m[c]) >= s
  }

  ghost predicate LowerFree(m: Words, S: set<int>, b: int, s: int) {
    exists c {:trigger c in S} :: c in S && LowerAt(m, S, b, s, c)
  }

  /** The block at a is free and has n words or more. */
  ghost predicate FitsAt(m: Words, S: set<int>, n: int, a: int) {
    a in S && 0 <= a < |m| && IsFree(m[a]) && n <= Size(m[a])
  }

  ghost predicate SomeFits(m: Words, S: set<int>, n: int) {
    exists a {:trigger a in S} :: a in S && FitsAt(m, S, n, a)
  }

  /** The block at b, which lacks s of n words, cannot grow where it is; nor, unless it is fixed,
      move to the free block below it or to some other one. */
  ghost predicate Wedged(m: Words, S: set<int>, b: int, s: int, n: int, fixed: bool) {
    !UpperFree(m, S, b, s) && (fixed || (!LowerFree(m, S, b, s) && !SomeFits(m, S, n)))
  }

  /** What is found for the block at b can be used. */
  ghost predicate Usable(m: Words, S: set<int>, b: int, n: int, spot: Spot)
    requires 0 <= b < |m|
  {
    match spot
    case Upper(c) =>
      c in S && 0 <= c < |m| && IsFree(m[c]) && c == b + Size(m[b]) && n <= Size(m[b]) + Size(m[c])
    case Lower(c) =>
      c in S && 0 <= c < |m| && IsFree(m[c]) && b == c + Size(m[c]) && n <= Size(m[b]) + Size(m[c])
    case Another(c) => c in S && 0 <= c < |m| && IsFree(m[c]) && n <= Size(m[c])
    case Nothing => true
  }

  /** The chunk, in words, in which memory is asked from the system. */
  function Chunk(sz: nat, n: nat): (r: nat)
    requires sz > 0
    ensures r >= n && r >= sz
    decreases n - sz
  {
    if sz < n then Chunk(2 * sz, n) else sz
  }

  const PAGE := 4096 / WORD

  /** The chunk is the smallest that is large enough among the doublings of a page. */
  lemma {:induction false} ChunkIs(sz: nat, n: nat) returns (k: nat)
    requires sz > 0
    ensures Chunk(sz, n) == sz * Pow2(k) && (k > 0 ==> sz * Pow2(k - 1) < n)
    decreases n - sz
  {
    hide Pow2;
    PowersHere();
    if sz < n {
      var j := ChunkIs(2 * sz, n);
      k := j + 1;
      Doubles(sz, j);
      if j > 0 {
        Doubles(sz, j - 1);
      }
    } else {
      k := 0;
    }
  }

  lemma Doubles(sz: nat, k: nat)
    ensures sz * Pow2(k + 1) == 2 * sz * Pow2(k)
  {
    PowNext(k);
    hide Pow2;
    assert sz * (2 * Pow2(k)) == 2 * sz * Pow2(k);
  }

  /** There is room exactly if the top can move up inside what the system has given,
      or some doubling of a page that is large enough can still be had. */
  lemma RoomIs(memTop: int, brk: int, limit: int, n: nat)
    ensures HasRoom(memTop, brk, limit, n) <==>
      || (memTop != NULL && memTop + n <= brk)
      || exists k: nat {:trigger Pow2(k)} :: 1024 * Pow2(k) >= n && brk + 1024 * Pow2(k) <= limit
  {
    var j := ChunkIs(1024, n);
    forall k: nat {:trigger Pow2(k)} | 1024 * Pow2(k) >= n
      ensures Pow2(j) <= Pow2(k)
    {
      if k < j {
        PowGrows(k, j - 1);
      } else {
        PowGrows(j, k);
      }
    }
  }

  /** Whether the top can move up by n words: inside what the system has given, or
      with a new chunk. */
  ghost predicate HasRoom(memTop: int, brk: int, limit: int, n: nat) {
    (memTop != NULL && memTop + n <= brk) || brk + Chunk(PAGE, n) <= limit
  }

  /** The top and the end of what the system has given after that. */
  function Raised(memTop: int, n: nat): int {
    (if memTop == NULL then BASE else memTop) + n
  }

  function Given(memTop: int, brk: int, n: nat): int {
    if memTop != NULL && memTop + n <= brk then brk else brk + Chunk(PAGE, n)
  }

  /** The stretch [b, e) holds used blocks only. */
  ghost predicate Solid(m: Words, top: int, S: set<int>, b: int, e: int) {
    && Tiled(m, top, S) && b in S && (e in S || e == top) && b + MIN_BLOCK <= e && (e - b) % ALIGN == 0
    && forall a {:trigger a in S} :: a in S && b <= a < e ==> !IsFree(m[a])
  }

  lemma SolidOne(m: Words, top: int, S: set<int>, b: int)
    requires Tiled(m, top, S) && b in S && !IsFree(m[b])
    ensures Solid(m, top, S, b, b + Size(m[b]))
  {
    assert Block(m, top, S, b);
    forall a | a in S && b <= a < b + Size(m[b])
      ensures a == b
    {
      Apart(m, top, S, a, b);
    }
  }

  lemma OnlyBlock(m: Words, top: int, S: set<int>, b: int)
    requires Tiled(m, top, S) && b in S
    ensures forall a {:trigger a in S} :: a in S && b <= a < b + Size(m[b]) ==> a == b
  {
    forall a | a in S && b <= a < b + Size(m[b])
      ensures a == b
    {
      Apart(m, top, S, a, b);
    }
  }

  lemma SolidTwo(m: Words, top: int, S: set<int>, b: int, c: int, e: int)
    requires Solid(m, top, S, b, c) && Solid(m, top, S, c, e)
    ensures Solid(m, top, S, b, e)
  {
    hide Block, Follows;
  }

  /** What follows a block, and what comes before it. */
  lemma Neighbours(m: Words, top: int, S: set<int>, b: int)
    requires Tiled(m, top, S) && b in S
    ensures var e := b + Size(m[b]);
            (e == top || e in S) && e <= top && b + MIN_BLOCK <= e && (e - b) % ALIGN == 0 && m[e - 1] == m[b]
    ensures b > BASE ==> b > BASE + 1
    ensures b > BASE ==> var p := b - Size(m[b - 1]);
      p in S && m[p] == m[b - 1] && p + Size(m[p]) == b && p + MIN_BLOCK <= b
  {
    assert Block(m, top, S, b) && Follows(m, S, b);
    if b > BASE {
      assert Block(m, top, S, b - Size(m[b - 1]));
    }
  }

  /** The block before one is used if the tail word before it says so. */
  lemma UsedBefore(m: Words, top: int, S: set<int>, b: int, a: int)
    requires Tiled(m, top, S) && b in S && a in S && a + Size(m[a]) == b
    ensures b > BASE && m[b - 1] == m[a]
  {
    assert Block(m, top, S, a);
  }

  /** What a block of z words keeps if n are wanted: the rest is freed if it is
      larger. */
  function Kept(z: int, n: int): int {
    if z - n > n then n else z
  }

  /** k words of m moved from src to dst. */
  ghost function Moved(m: Words, dst: int, src: int, k: nat): Words
    requires 0 <= dst && dst + k <= |m| && 0 <= src && src + k <= |m|
  {
    m[..dst] + m[src..src + k] + m[dst + k..]
  }

  lemma MovedNone(m: Words, dst: int, src: int)
    requires 0 <= dst <= |m| && 0 <= src <= |m|
    ensures Moved(m, dst, src, 0) == m
  {
  }

  lemma MovedNext(m: Words, dst: int, src: int, i: nat)
    requires 0 <= dst && dst + i < |m| && 0 <= src && src + i < |m| && (src >= dst || src + i < dst)
    ensures var w := Moved(m, dst, src, i);
            |w| == |m| && w[src + i] == m[src + i] && w[dst + i := w[src + i]] == Moved(m, dst, src, i + 1)
  {
    assert m[src..src + i + 1] == m[src..src + i] + [m[src + i]];
    assert m[dst + i..] == [m[dst + i]] + m[dst + i + 1..];
  }

  class Arena {
    const mem: array<int>
    const table: array<int>
    var memTop: int
    var brk: int
    var topBlock: int
    ghost var S: set<int>
    ghost var L: seq<seq<int>>

    ghost predicate Fits() {
      mem != table && table.Length == BINS && BASE <= mem.Length && WORD * mem.Length < 0x1_0000_0000
    }

    function Top(): int
      reads this`memTop
    {
      if memTop == NULL then BASE else memTop
    }

    ghost predicate Valid()
      reads this, mem, table
    {
      && Fits()
      && (memTop == NULL || BASE <= memTop)
      && Top() <= brk <= mem.Length
      && Heap(mem[..], table[..], Top(), S, L)
    }

    /** The blocks in use, by address, and what they hold. */
    ghost function Used(): map<int, seq<int>>
      reads this, mem
    {
      Live(mem[..], S)
    }

    /** The top block is one in use. */
    ghost predicate TopStands()
      reads this, mem
    {
      topBlock == NULL || topBlock in Used()
    }

    /** The words of the block at b, if it is one in use. */
    ghost function Extent(b: int): int
      reads this, mem
    {
      if b in Used() then |Used()[b]| + ALIGN + 1 else 0
    }

    lemma ExtentIs(b: int)
      requires Valid() && b in Used()
      ensures 0 <= b < mem.Length && Extent(b) == Size(mem[b])
    {
      hide Heap, User;
      HeapTiles(mem[..], table[..], Top(), S, L);
      LiveMember(mem[..], S, b);
      UserSize(mem[..], b);
    }

    /** An arena of n words before the first call. */
    constructor (n: nat)
      requires BASE <= n && WORD * n < 0x1_0000_0000
      ensures Valid() && fresh(mem) && fresh(table) && Used() == map[] && memTop == NULL && TopStands()
    {
      mem := new int[n](_ => 0);
      table := new int[BINS](_ => NULL);
      memTop, brk, topBlock := NULL, BASE, NULL;
      S, L := {}, seq(BINS, _ => []);
    }

    // Marking blocks used and free ------------------------------------------------------

    /** set_unfree. */
    method SetUnfree(b: int)
      requires Valid() && b in S && IsFree(mem[b])
      modifies this`L, mem, table
      ensures Valid() && mem[b] == UsedWord(old(Size(mem[b])))
      ensures !IsFree(mem[b]) && Size(mem[b]) == old(Size(mem[b]))
      ensures forall a {:trigger a in S} :: a in S && a != b ==> mem[a] == old(mem[a])
      ensures SameOutside(old(mem[..]), S, mem[..], S, b, b + 1)
    {
      hide Heap, Listed, Tiled, Log2, SameOutside, UsedKept, EndsKept;
      ghost var m := mem[..];
      HeapTiles(m, table[..], Top(), S, L);
      ghost var table', L' := UnlinkHeap(m, table[..], Top(), S, L, b);
      var i := FindLog2(mem[b]);
      var next, prev, n := mem[b + 1], mem[b + 2], Size(mem[b]);
      if next != NULL {
        mem[next + 2] := prev;
      }
      if prev != NULL {
        mem[prev + 1] := next;
      }
      if table[i] == b {
        table[i] := next;
      }
      mem[b] := UsedWord(n);
      mem[b + n - 1] := UsedWord(n);
      L := L';
      assert mem[..] == Unlinked(m, b);
      assert table[..] == table';
      UnlinkOutside(m, mem[..], Top(), S, b);
    }

    /** Take the free block above b, if there is one, into the stretch that starts at b. */
    method TakeUpper(b: int) returns (size: int)
      requires Valid() && b in S && !IsFree(mem[b])
      modifies this`L, mem, table
      ensures Valid() && mem[b] == old(mem[b]) && Solid(mem[..], Top(), S, b, b + size)
      ensures b + size in S ==> !IsFree(mem[b + size])
      ensures var u := b + old(Size(mem[b]));
              && b < u <= b + size && SameOutside(old(mem[..]), S, mem[..], S, u, b + size)
              && (forall a {:trigger IsLive(old(mem[..]), S, a)} :: u <= a < b + size ==> !IsLive(old(mem[..]), S, a))
    {
      hide Listed, Tiled, Coalesced, Solid, SameOutside, IsLive;
      ghost var m := mem[..];
      HeapTiles(m, table[..], Top(), S, L);
      Neighbours(m, Top(), S, b);
      SolidOne(m, Top(), S, b);
      SameAll(m, S, b + Size(m[b]));
      size := Size(mem[b]);
      var b1 := b + size;
      if b1 < memTop && IsFree(mem[b1]) {
        size := size + Size(mem[b1]);
        SetUnfree(b1);
        HeapTiles(mem[..], table[..], Top(), S, L);
        TakenAbove(m, mem[..], Top(), S, b, b1);
      }
    }

    /** Take the free block below b, if there is one, into the stretch up to e. */
    method TakeLower(b: int, ghost e: int) returns (c: int)
      requires Valid() && Solid(mem[..], Top(), S, b, e) && (e in S ==> !IsFree(mem[e]))
      modifies this`L, mem, table
      ensures Valid() && c <= b && Pushable(mem[..], Top(), S, c, e)
      ensures SameOutside(old(mem[..]), S, mem[..], S, c, b)
      ensures forall a {:trigger IsLive(old(mem[..]), S, a)} :: c <= a < b ==> !IsLive(old(mem[..]), S, a)
    {
      hide Listed, Tiled, Coalesced, Solid, Pushable, SameOutside, IsLive;
      ghost var m := mem[..];
      HeapTiles(m, table[..], Top(), S, L);
      SolidBounds(m, Top(), S, b, e);
      Neighbours(m, Top(), S, b);
      SameAll(m, S, b);
      c := b;
      var s1 := b - 1;
      if s1 > BASE && IsFree(mem[s1]) {
        c := b - Size(mem[s1]);
        SetUnfree(c);
        HeapTiles(mem[..], table[..], Top(), S, L);
        TakenBelow(m, mem[..], Top(), S, b, c, e);
      } else {
        NoneBelow(m, Top(), S, b, e);
      }
    }

    /** Tag [b, b + size) as one free block and link it in first in its list. */
    method LinkFree(b: int, size: int)
      requires Valid() && Pushable(mem[..], Top(), S, b, b + size)
      modifies this`L, this`S, mem, table
      ensures Valid() && SameOutside(old(mem[..]), old(S), mem[..], S, b, b + size)
      ensures b in S && IsFree(mem[b]) && forall a {:trigger a in S} :: a in S && b <= a < b + size ==> a == b
    {
      hide Listed, Tiled, Pushable, Log2, SameOutside, UsedKept, EndsKept;
      ghost var m, top, S0 := mem[..], Top(), S;
      HeapTiles(m, table[..], top, S, L);
      PushableBounds(m, top, S, b, b + size);
      ghost var S', L' := PushHeap(m, table[..], top, S, L, b, b + size);
      mem[b] := FreeWord(size);
      mem[b + size - 1] := FreeWord(size);
      var i := FindLog2(FreeWord(size));
      var next := table[i];
      mem[b + 1] := next;
      mem[b + 2] := NULL;
      table[i] := b;
      if next != NULL {
        mem[next + 2] := b;
      }
      S, L := S', L';
      assert mem[..] == Pushed(m, b, size, next);
      KeptOutside(m, mem[..], top, S0, S, b, b + size);
      HeapTiles(mem[..], table[..], top, S, L);
    }

    /** set_free: the block joins its free neighbours and the whole is linked in. */
    method SetFree(b: int)
      requires Valid() && b in S && !IsFree(mem[b])
      modifies this`L, this`S, mem, table
      ensures Valid() && Used() == old(Used()) - {b}
    {
      hide Heap, Listed, Tiled, Pushable, Live, SameOutside;
      ghost var m0, S0 := mem[..], S;
      HeapTiles(mem[..], table[..], Top(), S, L);
      OnlyBlock(mem[..], Top(), S, b);
      ghost var u := b + Size(mem[b]);
      var size := TakeUpper(b);
      ghost var m1, e := mem[..], b + size;
      var c := TakeLower(b, e);
      ghost var m2 := mem[..];
      size := size + (b - c);
      LinkFree(c, size);
      HeapTiles(mem[..], table[..], Top(), S, L);
      FreedLive(m0, S0, m1, m2, mem[..], S, b, u, c, e);
    }

    /** Tag and size words of a block in use. */
    method SetUsed(b: int, n: int)
      requires 0 <= b && 0 < n && b + n <= mem.Length
      modifies mem
      ensures mem[..] == old(mem[..])[b := UsedWord(n)][b + n - 1 := UsedWord(n)]
    {
      mem[b] := UsedWord(n);
      mem[b + n - 1] := UsedWord(n);
    }

    /** split: the back of the block is freed. */
    method Split(b: int, r: int)
      requires Valid() && b in S && !IsFree(mem[b])
      requires MIN_BLOCK <= r && r + MIN_BLOCK <= Size(mem[b]) && r % ALIGN == 0
      modifies this`L, this`S, mem, table
      ensures Valid() && b in S && mem[b] == UsedWord(r)
      ensures User(mem[..], b) <= old(User(mem[..], b)) && Used() == old(Used())[b := User(mem[..], b)]
    {
      hide Heap, Listed, Tiled, Live, SameOutside, User, Reworked;
      ghost var m, S0, u := mem[..], S, Used();
      HeapTiles(m, table[..], Top(), S, L);
      var f := b + r;
      var n := Size(mem[b]);
      SetUsed(f, n - r);
      SetUsed(b, r);
      S := S + {f};
      SplitHeap(m, mem[..], table[..], Top(), S0, L, b, f);
      ghost var w := User(mem[..], b);
      SetFree(f);
      LiveHas(mem[..], S);
      assert b in Used() && Used()[b] == w;
      HeapTiles(mem[..], table[..], Top(), S, L);
      LiveSays(mem[..], S, b, r, w);
    }

    /** maybe_split: split if the back would be larger than the front. */
    method MaybeSplit(b: int, r: int)
      requires Valid() && b in S && !IsFree(mem[b]) && MIN_BLOCK <= r <= Size(mem[b]) && r % ALIGN == 0
      modifies this`L, this`S, mem, table
      ensures Valid() && b in S && !IsFree(mem[b]) && Size(mem[b]) == Kept(old(Size(mem[b])), r)
      ensures User(mem[..], b) <= old(User(mem[..], b)) && Used() == old(Used())[b := User(mem[..], b)]
    {
      hide Heap, Listed, Tiled, SameOutside, User;
      HeapTiles(mem[..], table[..], Top(), S, L);
      if Size(mem[b]) - r > r {
        Split(b, r);
      } else {
        LiveOf(mem[..], S, b);
      }
    }

    // New memory ---------------------------------------------------------------------------

    /** Whether n words can be had at the top. */
    ghost predicate Room(n: nat)
      reads this`memTop, this`brk
    {
      HasRoom(memTop, brk, mem.Length, n)
    }

    /** The buffer that top_malloc really gets for k words. */
    ghost function Buffered(k: nat): (r: nat)
      reads this`memTop, this`brk
      ensures r == 0 || r == k
    {
      if k != 0 && Room(k) then k else 0
    }

    /** Whether n words can be had at the top above a buffer of k words. */
    ghost predicate RoomAbove(n: nat, k: nat)
      reads this`memTop, this`brk
    {
      if Buffered(k) == 0 then Room(n)
      else HasRoom(Raised(memTop, k), Given(memTop, brk, k), mem.Length, n)
    }

    /** get_mem: move the top up, asking the system for more in doubled pages. */
    method GetMem(n: nat) returns (p: int)
      requires n > 0 && (memTop == NULL || BASE <= memTop) && Top() <= brk <= mem.Length && Top() % ALIGN == 0
      modifies this`memTop, this`brk
      ensures p != NULL <==> old(Room(n))
      ensures p != NULL ==> p == old(Top()) && memTop == p + n <= brk <= mem.Length
      ensures p != NULL ==> brk == Given(old(memTop), old(brk), n)
      ensures p == NULL ==> memTop == old(memTop) && brk == old(brk)
    {
      if memTop == NULL || memTop + n > brk {
        var sz := PAGE;
        while sz < n
          invariant 0 < sz && Chunk(sz, n) == Chunk(PAGE, n)
          decreases n - sz
        {
          sz := 2 * sz;
        }
        if brk + sz > mem.Length {
          return NULL;
        }
        if memTop == NULL {
          memTop := BASE;
        }
        brk := brk + sz;
      }
      p := memTop;
      memTop := memTop + n;
      p := Round(p, ALIGN);
    }

    /** The state after get_mem: a heap below p, and [p, memTop) new. */
    ghost predicate Gotten(p: int)
      reads this, mem, table
    {
      Fits() && BASE <= p < memTop <= brk <= mem.Length && Heap(mem[..], table[..], p, S, L)
    }

    /** init_block on new memory. */
    method InitBlock(p: int, n: nat)
      requires Gotten(p) && memTop == p + n && n >= MIN_BLOCK && n % ALIGN == 0
      modifies this`S, mem
      ensures Valid() && p in S && mem[p] == UsedWord(n) && p !in old(Used())
      ensures Used() == old(Used())[p := User(mem[..], p)]
    {
      hide Heap, Live, User;
      ghost var m, S0 := mem[..], S;
      SetUsed(p, n);
      S := S + {p};
      NewHeap(m, mem[..], table[..], p, S0, L, n);
    }

    /** init_block on new memory above the last block, and join: the block grows. */
    method GrowTop(b: int, n: nat)
      requires Gotten(memTop - n) && 0 < n && n % ALIGN == 0
      requires b in S && !IsFree(mem[b]) && b + Size(mem[b]) == memTop - n
      modifies mem
      ensures Valid() && mem[b] == UsedWord(old(Size(mem[b])) + n)
      ensures old(User(mem[..], b)) <= User(mem[..], b) && Used() == old(Used())[b := User(mem[..], b)]
    {
      hide Heap, Live, User;
      ghost var m, p := mem[..], memTop - n;
      HeapTiles(m, table[..], p, S, L);
      SetUsed(memTop - n, n);
      var s := Size(mem[b]) + n;
      SetUsed(b, s);
      GrownHeap(m, mem[..], table[..], p, memTop, S, L, b);
    }

    /** join: two adjacent used blocks become one. */
    method Join(b: int, c: int)
      requires Valid() && b in S && c in S && !IsFree(mem[b]) && !IsFree(mem[c]) && c == b + Size(mem[b])
      modifies this`S, mem
      ensures Valid() && b in S && S == old(S) - {c}
      ensures var n := old(Size(mem[b]) + Size(mem[c]));
        && 0 <= b < b + n <= mem.Length && mem[..] == old(mem[..])[b := UsedWord(n)][b + n - 1 := UsedWord(n)]
      ensures old(User(mem[..], b)) <= User(mem[..], b)
      ensures Used() == (old(Used()) - {c})[b := User(mem[..], b)]
      ensures !IsFree(mem[b]) && Size(mem[b]) == old(Size(mem[b]) + Size(mem[c]))
    {
      hide Heap, Live, User;
      ghost var m, S0 := mem[..], S;
      HeapTiles(m, table[..], Top(), S, L);
      SetUsed(b, Size(mem[b]) + Size(mem[c]));
      S := S - {c};
      JoinedHeap(m, mem[..], table[..], Top(), S0, L, b, c);
    }

    /** memcpy, in ascending order: the source may overlap from above. */
    method CopyWords(dst: int, src: int, k: nat)
      requires 0 <= dst && dst + k <= mem.Length && 0 <= src && src + k <= mem.Length && (src >= dst || src + k <= dst)
      modifies mem
      ensures mem[..] == Moved(old(mem[..]), dst, src, k)
    {
      ghost var m := mem[..];
      hide Moved;
      MovedNone(m, dst, src);
      for i := 0 to k
        invariant mem[..] == Moved(m, dst, src, i)
      {
        MovedNext(m, dst, src, i);
        mem[dst + i] := mem[src + i];
      }
    }

    /** The same into the user part of a block. */
    method Copy(b: int, src: int, k: nat)
      requires Valid() && b in S && !IsFree(mem[b]) && ALIGN + k + 1 <= Size(mem[b])
      requires 0 <= src && src + k <= mem.Length && (src >= b + ALIGN || src + k <= b + ALIGN)
      modifies mem
      ensures Valid() && mem[b] == old(mem[b]) && k <= |User(mem[..], b)|
      ensures User(mem[..], b)[..k] == old(mem[src..src + k])
      ensures Used() == old(Used())[b := User(mem[..], b)]
    {
      hide Heap, Live, User, Tiled, WordOk, Moved;
      ghost var m := mem[..];
      HeapTiles(m, table[..], Top(), S, L);
      CopyWords(b + ALIGN, src, k);
      CopiedHeap(m, mem[..], table[..], Top(), S, L, b, src, k);
      CopiedUser(m, mem[..], b, src, k);
    }

    // Searching ---------------------------------------------------------------------------

    /** find_free_block. */
    method FindFreeBlock(n: nat) returns (b: int)
      requires Valid() && n > 0
      ensures b == FindFit(mem[..], L, n)
    {
      hide Tiled, Coalesced, Log2, Chain, LinkAt, Filed, Findable, FitIn;
      ghost var m := mem[..];
      var i := FindLog2(WORD * n);
      while i < BINS
        invariant FirstFit(m, L, n, i) == FindFit(m, L, n)
      {
        b := table[i];
        ghost var k := 0;
        ListAt(m, table[..], S, L, n, i, k);
        while b != NULL
          invariant k <= |L[i]| && b == (if k < |L[i]| then L[i][k] else NULL)
          invariant k == |L[i]| || (BASE <= L[i][k] && L[i][k] + 2 < |m|)
          invariant FitIn(m, L[i], n, k) == FitIn(m, L[i], n, 0)
          decreases |L[i]| - k
        {
          ListAt(m, table[..], S, L, n, i, k);
          if n <= Size(mem[b]) {
            return b;
          }
          b := mem[b + 1];
          k := k + 1;
          ListAt(m, table[..], S, L, n, i, k);
        }
        ListAt(m, table[..], S, L, n, i, k);
        i := i + 1;
      }
      return NULL;
    }

    /** find_realloc_block. */
    method FindReallocBlock(b: int, n: nat) returns (spot: Spot)
      requires Valid() && b in S && !IsFree(mem[b]) && Size(mem[b]) < n
      ensures BASE <= b && 0 <= Size(mem[b]) && memTop <= mem.Length
      ensures spot == ReallocSpot(mem[..], memTop, L, b, n)
    {
      hide Heap, Tiled, Coalesced, Listed, FindFit;
      HeapTiles(mem[..], table[..], Top(), S, L);
      var s := n - Size(mem[b]);
      var b1 := b + Size(mem[b]);
      if b1 < memTop && IsFree(mem[b1]) && Size(mem[b1]) >= s {
        return Upper(b1);
      }
      var s1 := b - 1;
      if s1 > BASE && IsFree(mem[s1]) && Size(mem[s1]) >= s {
        return Lower(b - Size(mem[s1]));
      }
      b1 := FindFreeBlock(n);
      if b1 != NULL {
        return Another(b1);
      }
      return Nothing;
    }

    // The user's calls -----------------------------------------------------------------------

    /** Where a new block would go. */
    ghost function PredictNew(size: nat): int
      reads this, mem
    {
      if size == 0 then NULL
      else
        var f := FindFit(mem[..], L, RealSize(size));
        if f != NULL then f + ALIGN else if memTop != NULL then memTop + ALIGN else NULL
    }

    /** Whether a block of n words can be had without moving the top. */
    ghost predicate Fitting(n: nat)
      reads this, mem
    {
      exists a {:trigger a in S} :: a in S && 0 <= a < mem.Length && IsFree(mem[a]) && n <= Size(mem[a])
    }

    /** malloc. */
    method Malloc(size: nat) returns (p: int)
      requires Valid() && size <= MAX_REQUEST
      modifies this`memTop, this`brk, this`L, this`S, mem, table
      ensures Valid()
      ensures p == NULL <==> size == 0 || (!old(Fitting(RealSize(size))) && !old(Room(RealSize(size))))
      ensures p == NULL ==> Used() == old(Used())
      ensures p != NULL ==> var b := p - ALIGN;
        && b !in old(Used()) && b in Used() && Used() == old(Used())[b := Used()[b]] && size <= WORD * |Used()[b]|
      ensures p != NULL ==> var b, n := p - ALIGN, RealSize(size);
        if old(Fitting(n)) then
          && memTop == old(memTop) && brk == old(brk) && old(FitsAt(mem[..], S, n, b))
          && |Used()[b]| + ALIGN + 1 == if old(Size(mem[b])) > 2 * n then n else old(Size(mem[b]))
        else
          b == old(Top()) && memTop == b + n && |Used()[b]| + ALIGN + 1 == n
      ensures p != NULL && old(memTop) != NULL ==> p == old(PredictNew(size))
      ensures old(TopStands()) ==> TopStands()
    {
      hide Heap, Live, User, FindFit, RealSize, SameOutside;
      if size == 0 {
        return NULL;
      }
      HeapTiles(mem[..], table[..], Top(), S, L);
      RealSizeFits(size);
      var n := RealSize(size);
      FindFitIs(mem[..], table[..], Top(), S, L, n);
      var b := FindFreeBlock(n);
      if b != NULL {
        Take(b, n);
        return b + ALIGN;
      }
      p := FromTop(n);
    }

    /** A block of n words of new memory at the top. */
    method FromTop(n: nat) returns (p: int)
      requires Valid() && MIN_BLOCK <= n && n % ALIGN == 0
      modifies this`memTop, this`brk, this`S, mem
      ensures Valid() && (p == NULL <==> !old(Room(n)))
      ensures p == NULL ==> Used() == old(Used()) && memTop == old(memTop) && brk == old(brk)
      ensures p != NULL ==> var b := p - ALIGN;
        && b == old(Top()) && memTop == b + n && b !in old(Used()) && b in Used()
        && Used() == old(Used())[b := Used()[b]] && |Used()[b]| + ALIGN + 1 == n
    {
      hide Heap, Live, User, HasRoom, Given;
      HeapTiles(mem[..], table[..], Top(), S, L);
      var b := GetMem(n);
      if b != NULL {
        InitBlock(b, n);
        LiveOf(mem[..], S, b);
        UserSize(mem[..], b);
        return b + ALIGN;
      }
      return NULL;
    }

    /** A free block is taken for n words. */
    method Take(b: int, n: nat)
      requires Valid() && b in S && IsFree(mem[b]) && MIN_BLOCK <= n <= Size(mem[b]) && n % ALIGN == 0
      modifies this`L, this`S, mem, table
      ensures Valid() && b in S && !IsFree(mem[b]) && n <= Size(mem[b])
      ensures b !in old(Used()) && b in Used() && Used() == old(Used())[b := Used()[b]]
      ensures |Used()[b]| == Kept(old(Size(mem[b])), n) - ALIGN - 1
    {
      hide Heap, Live, User, SameOutside;
      ghost var m := mem[..];
      HeapTiles(m, table[..], Top(), S, L);
      SetUnfree(b);
      HeapTiles(mem[..], table[..], Top(), S, L);
      TakenLive(m, mem[..], S, b);
      MaybeSplit(b, n);
      LiveOf(mem[..], S, b);
      HeapTiles(mem[..], table[..], Top(), S, L);
      UserSize(mem[..], b);
    }

    /** free. */
    method Free(p: int)
      requires Valid() && (p != NULL ==> p - ALIGN in Used())
      modifies this`topBlock, this`L, this`S, mem, table
      ensures Valid()
      ensures Used() == if p == NULL then old(Used()) else old(Used()) - {p - ALIGN}
      ensures topBlock == if p != NULL && p - ALIGN == old(topBlock) then NULL else old(topBlock)
      ensures old(TopStands()) ==> TopStands()
    {
      if p == NULL {
        return;
      }
      var b := p - ALIGN;
      if b == topBlock {
        topBlock := NULL;
      }
      SetFree(b);
    }

    /** top_malloc: always new memory, with a free buffer below it if there is room. */
    method TopMalloc(size: nat, bufsize: nat) returns (p: int)
      requires Valid() && size <= MAX_REQUEST && bufsize <= MAX_REQUEST
      modifies this`memTop, this`brk, this`topBlock, this`L, this`S, mem, table
      ensures Valid()
      ensures p == NULL <==> !old(RoomAbove(RealSize(size), BufferSize(bufsize)))
      ensures p == NULL ==> Used() == old(Used()) && topBlock == old(topBlock)
      ensures p != NULL ==> var b := p - ALIGN;
        && topBlock == b && b == old(Top() + Buffered(BufferSize(bufsize))) && b + RealSize(size) == Top()
        && b !in old(Used()) && b in Used() && Used() == old(Used())[b := Used()[b]] && size <= WORD * |Used()[b]|
      ensures old(TopStands()) ==> TopStands()
    {
      hide Heap, Live, User, RealSize, HasRoom, Given;
      RealSizeFits(size);
      RealSizeFits(bufsize);
      var n := RealSize(size);
      var k := BufferSize(bufsize);
      if k != 0 {
        Buffer(k);
      }
      p := FromTop(n);
      if p != NULL {
        topBlock := p - ALIGN;
      }
    }

    method Buffer(k: nat)
      requires Valid() && k >= MIN_BLOCK && k % ALIGN == 0
      modifies this`memTop, this`brk, this`L, this`S, mem, table
      ensures Valid() && Used() == old(Used())
      ensures old(Room(k)) ==> memTop == Raised(old(memTop), k) && brk == Given(old(memTop), old(brk), k)
      ensures !old(Room(k)) ==> memTop == old(memTop) && brk == old(brk)
    {
      hide Heap, Live, User, Chunk;
      HeapTiles(mem[..], table[..], Top(), S, L);
      var b := GetMem(k);
      if b != NULL {
        ghost var u := Used();
        InitBlock(b, k);
        ghost var u' := Used();
        SetFree(b);
        assert u' - {b} == u;
      }
    }

    /** Where realloc would put the block. */
    ghost function Predict(p: int, size: nat): int
      requires Fits() && memTop <= mem.Length
      requires p != NULL ==> BASE <= p - ALIGN < mem.Length && 0 <= Size(mem[p - ALIGN])
      reads this, mem
    {
      if p == NULL then PredictNew(size)
      else if size == 0 then NULL
      else
        var b, n := p - ALIGN, RealSize(size);
        if Size(mem[b]) >= n then p
        else Grows(b, n)
    }

    /** maybe_realloc. */
    method MaybeRealloc(p: int, size: nat) returns (r: int)
      requires Valid() && size <= MAX_REQUEST && (p != NULL ==> p - ALIGN in Used())
      ensures memTop <= mem.Length && (p != NULL ==> BASE <= p - ALIGN < mem.Length && 0 <= Size(mem[p - ALIGN]))
      ensures r == Predict(p, size)
    {
      hide Heap, User, RealSize, ReallocSpot, FindFit;
      HeapTiles(mem[..], table[..], Top(), S, L);
      RealSizeFits(size);
      if p == NULL {
        r := MaybeMalloc(size);
        return;
      }
      if size == 0 {
        return NULL;
      }
      var b := p - ALIGN;
      var n := RealSize(size);
      if Size(mem[b]) >= n {
        return p;
      }
      var spot := FindReallocBlock(b, n);
      if spot.Upper? {
        return p;
      }
      if !spot.Nothing? && b != topBlock {
        return spot.b + ALIGN;
      }
      if Round(memTop, ALIGN) == b + Size(mem[b]) {
        return p;
      }
      var b1 := Round(memTop, ALIGN);
      if b1 != NULL {
        return b1 + ALIGN;
      }
      return NULL;
    }

    method MaybeMalloc(size: nat) returns (r: int)
      requires Valid() && size <= MAX_REQUEST
      ensures r == PredictNew(size)
    {
      hide Heap, User, RealSize, FindFit;
      HeapTiles(mem[..], table[..], Top(), S, L);
      if size == 0 {
        return NULL;
      }
      RealSizeFits(size);
      var n := RealSize(size);
      var b := FindFreeBlock(n);
      if b != NULL {
        return b + ALIGN;
      }
      b := Round(memTop, ALIGN);
      if b != NULL {
        return b + ALIGN;
      }
      return NULL;
    }

    // realloc, case by case -----------------------------------------------------------------

    /** GOT_UPPER: the free block above is taken in. */
    method GrowUpper(b: int, c: int, n: nat)
      requires Valid() && b in S && !IsFree(mem[b]) && c in S && IsFree(mem[c]) && c == b + Size(mem[b])
      requires Size(mem[b]) < n <= Size(mem[b]) + Size(mem[c]) && n % ALIGN == 0
      modifies this`L, this`S, mem, table
      ensures Valid() && b in old(Used()) && b in Used() && Used() == old(Used())[b := Used()[b]]
      ensures old(Used()[b]) <= Used()[b] && n <= |Used()[b]| + ALIGN + 1 <= 2 * n
    {
      hide Heap, Live, User, SameOutside, IsLive, Tiled, WordOk, SizeSize, UsedWord;
      ghost var m := mem[..];
      HeapTiles(m, table[..], Top(), S, L);
      LiveOf(m, S, b);
      UserSize(m, b);
      SetUnfree(c);
      SameAt(m, S, mem[..], S, c, b);
      TakenLive(m, mem[..], S, c);
      Join(b, c);
      HeapTiles(mem[..], table[..], Top(), S, L);
      MaybeSplit(b, n);
      HeapTiles(mem[..], table[..], Top(), S, L);
      LiveOf(mem[..], S, b);
      UserSize(mem[..], b);
    }

    /** The block joins the free one below. */
    method JoinLower(b: int, c: int)
      requires Valid() && b in S && !IsFree(mem[b]) && c in S && IsFree(mem[c]) && b == c + Size(mem[c])
      modifies this`L, this`S, mem, table
      ensures Valid() && b in old(Used()) && c in Used() && Used() == (old(Used()) - {b})[c := Used()[c]]
      ensures c in S && mem[c] == UsedWord(old(Size(mem[c]) + Size(mem[b])))
      ensures var k := |old(Used()[b])|;
        && k == old(Size(mem[b])) - ALIGN - 1 && 0 <= b && b + ALIGN + k <= mem.Length
        && mem[b + ALIGN..b + ALIGN + k] == old(Used()[b])
    {
      hide Heap, Live, User, SameOutside, IsLive, Tiled, WordOk, SizeSize, UsedWord;
      ghost var m := mem[..];
      HeapTiles(m, table[..], Top(), S, L);
      LiveOf(m, S, b);
      UserSize(m, b);
      SetUnfree(c);
      SameAt(m, S, mem[..], S, c, b);
      TakenLive(m, mem[..], S, c);
      ghost var m1 := mem[..];
      HeapTiles(m1, table[..], Top(), S, L);
      Join(c, b);
      HeapTiles(mem[..], table[..], Top(), S, L);
      LiveOf(mem[..], S, c);
      UserAt(m1, mem[..], b, c, Size(m[b]) - ALIGN - 1);
    }

    /** GOT_LOWER: after joining the contents move down, overlapping. */
    method MoveLower(b: int, c: int, n: nat)
      requires Valid() && b in S && !IsFree(mem[b]) && c in S && IsFree(mem[c]) && b == c + Size(mem[c])
      requires Size(mem[b]) < n <= Size(mem[b]) + Size(mem[c]) && n % ALIGN == 0
      modifies this`L, this`S, mem, table
      ensures Valid() && b in old(Used()) && c in Used() && Used() == (old(Used()) - {b})[c := Used()[c]]
      ensures old(Used()[b]) <= Used()[c] && n <= |Used()[c]| + ALIGN + 1 <= 2 * n
    {
      hide Heap, Live, User, SameOutside, IsLive, Tiled, WordOk;
      HeapTiles(mem[..], table[..], Top(), S, L);
      var k := Size(mem[b]) - ALIGN - 1;
      JoinLower(b, c);
      HeapTiles(mem[..], table[..], Top(), S, L);
      Copy(c, b + ALIGN, k);
      ghost var w := User(mem[..], c);
      MaybeSplit(c, n);
      HeapTiles(mem[..], table[..], Top(), S, L);
      LiveOf(mem[..], S, c);
      UserSize(mem[..], c);
      Prefixes(old(Used()[b]), w, User(mem[..], c), k);
    }

    /** The contents of b move to the used block c, and b is freed. */
    method MoveOver(b: int, c: int)
      requires Valid() && b in Used() && c in Used() && b != c && |Used()[b]| <= |Used()[c]|
      modifies this`L, this`S, mem, table
      ensures Valid() && c in Used() && Used() == (old(Used()) - {b})[c := Used()[c]]
      ensures old(Used()[b]) <= Used()[c] && |Used()[c]| == old(|Used()[c]|)
    {
      hide Heap, User, SameOutside, IsLive, Tiled, WordOk, Live, Size;
      ghost var u, m := Used(), mem[..];
      HeapTiles(m, table[..], Top(), S, L);
      LiveHas(m, S);
      LiveMember(m, S, b);
      LiveMember(m, S, c);
      UserSize(m, b);
      UserSize(m, c);
      Apart(m, Top(), S, b, c);
      var k := Size(mem[b]) - ALIGN - 1;
      UserIs(m, b);
      Copy(c, b + ALIGN, k);
      ghost var w := User(mem[..], c);
      UserSize(mem[..], c);
      LiveMember(mem[..], S, b);
      SetFree(b);
    }

    /** GOT_ANOTHER: the free block at c is taken for the contents of b. */
    method MoveTo(b: int, c: int, n: nat)
      requires Valid() && b in Used() && |Used()[b]| <= n - ALIGN - 1
      requires c in S && IsFree(mem[c]) && MIN_BLOCK <= n <= Size(mem[c]) && n % ALIGN == 0
      modifies this`L, this`S, mem, table
      ensures Valid() && c in Used() && Used() == (old(Used()) - {b})[c := Used()[c]]
      ensures n <= |Used()[c]| + ALIGN + 1 <= 2 * n && old(Used()[b]) <= Used()[c]
    {
      hide Heap, User, SameOutside, IsLive, Live, Tiled, Size, WordOk, IsFree;
      Take(c, n);
      MoveOver(b, c);
    }

    /** The block at b cannot grow to n words, or move, below the top. The top block
        does not move there. */
    ghost predicate Tight(b: int, n: nat)
      reads this, mem
    {
      n > Extent(b) && Wedged(mem[..], S, b, n - Extent(b), n, b == topBlock)
    }

    /** There is memory for n words at the top, or for what the last block lacks. */
    ghost predicate RoomToGrow(b: int, n: nat)
      reads this, mem
    {
      Room(n) || (n > Extent(b) && b + Extent(b) == memTop && Room(n - Extent(b)))
    }

    ghost predicate Stuck(b: int, n: nat)
      reads this, mem
    {
      Tight(b, n) && !RoomToGrow(b, n)
    }

    /** The three ways to use a free block. */
    method MoveToSpot(b: int, spot: Spot, n: nat)
      requires Valid() && b in Used() && b in S && !IsFree(mem[b]) && Size(mem[b]) < n && n % ALIGN == 0
      requires !spot.Nothing? && Usable(mem[..], S, b, n, spot)
      modifies this`L, this`S, mem, table
      ensures Valid() && var c := if spot.Upper? then b else spot.b;
        && 0 <= c && c in Used() && Used() == (old(Used()) - {b})[c := Used()[c]]
        && n <= |Used()[c]| + ALIGN + 1 <= 2 * n && old(Used()[b]) <= Used()[c]
    {
      hide Heap, User, SameOutside, IsLive, Live, FindFit, Tiled, Size, WordOk, IsFree, Log2, UsedWord;
      HeapTiles(mem[..], table[..], Top(), S, L);
      LiveOf(mem[..], S, b);
      UserSize(mem[..], b);
      match spot {
        case Upper(c) => GrowUpper(b, c, n);
        case Lower(c) => MoveLower(b, c, n);
        case Another(c) => MoveTo(b, c, n);
      }
    }

    /** Find a place for the block at b to grow to n words. */
    method Move(b: int, n: nat) returns (r: int)
      requires Valid() && b in Used() && b in S && !IsFree(mem[b]) && Size(mem[b]) < n && n % ALIGN == 0
      modifies this`memTop, this`brk, this`topBlock, this`L, this`S, mem, table
      ensures Valid()
      ensures r == NULL ==> Used() == old(Used())
      ensures r != NULL ==> var c := r - ALIGN;
        && c in Used() && Used() == (old(Used()) - {b})[c := Used()[c]]
        && n <= |Used()[c]| + ALIGN + 1 <= 2 * n && old(Used()[b]) <= Used()[c]
      ensures r == NULL <==> old(Stuck(b, n))
      ensures !old(Tight(b, n)) ==> memTop == old(memTop) && brk == old(brk)
      ensures BASE <= b < mem.Length && 0 <= old(Size(mem[b])) && old(memTop) <= mem.Length
      ensures r != NULL ==> r == old(Grows(b, n))
      ensures topBlock == if r != NULL && b == old(topBlock) then r - ALIGN else old(topBlock)
      ensures r != NULL && b == old(topBlock) ==> r >= b + ALIGN
    {
      hide Heap, User, SameOutside, IsLive, Live, FindFit, Chunk, Tiled, Size, WordOk, IsFree, ReallocSpot, Log2,
        Wedged, RoomToGrow, UsedWord, Usable, Extent;
      HeapTiles(mem[..], table[..], Top(), S, L);
      SpotSays(mem[..], table[..], Top(), memTop, S, L, b, n, b == topBlock);
      ExtentIs(b);
      LiveOf(mem[..], S, b);
      UserSize(mem[..], b);
      var spot := FindReallocBlock(b, n);
      if spot.Upper? || (!spot.Nothing? && b != topBlock) {
        MoveToSpot(b, spot, n);
        r := ALIGN + if spot.Upper? then b else spot.b;
      } else {
        r := Expand(b, n);
      }
    }

    /** Grow at the top, or move to a new block there. */
    method Expand(b: int, n: nat) returns (r: int)
      requires Valid() && b in Used() && b in S && !IsFree(mem[b]) && Size(mem[b]) < n && n % ALIGN == 0
      modifies this`memTop, this`brk, this`topBlock, this`L, this`S, mem, table
      ensures Valid()
      ensures r == NULL ==> Used() == old(Used())
      ensures r == NULL <==> !old(RoomToGrow(b, n))
      ensures r != NULL ==> var c := r - ALIGN;
        && c in Used() && Used() == (old(Used()) - {b})[c := Used()[c]]
        && |Used()[c]| == n - ALIGN - 1 && old(Used()[b]) <= Used()[c]
      ensures r != NULL ==> r == ALIGN + if old(memTop) == b + old(Size(mem[b])) then b else old(memTop)
      ensures topBlock == if r != NULL && b == old(topBlock) then r - ALIGN else old(topBlock)
      ensures r != NULL ==> r >= b + ALIGN
    {
      hide Heap, User, SameOutside, IsLive, Live, FindFit, Chunk, Tiled, HasRoom, Extent;
      ExtentIs(b);
      HeapTiles(mem[..], table[..], Top(), S, L);
      LiveOf(mem[..], S, b);
      UserSize(mem[..], b);
      if b + Size(mem[b]) == memTop {
        var grown := Stretch(b, n);
        if grown {
          return b + ALIGN;
        }
      }
      r := MoveTop(b, n);
    }

    /** The last block takes in new memory, if there is any. */
    method Stretch(b: int, n: nat) returns (grown: bool)
      requires Valid() && b in S && !IsFree(mem[b]) && Size(mem[b]) < n && n % ALIGN == 0 && b + Size(mem[b]) == memTop
      modifies this`memTop, this`brk, mem
      ensures Valid() && (!grown ==> memTop == old(memTop) && brk == old(brk) && mem[..] == old(mem[..]))
      ensures grown ==>
        && b in old(Used()) && b in Used() && Used() == old(Used())[b := Used()[b]]
        && |Used()[b]| == n - ALIGN - 1 && old(Used()[b]) <= Used()[b]
      ensures 0 <= b < mem.Length && 0 <= n - old(Size(mem[b])) && (grown <==> old(Room(n - Size(mem[b]))))
      ensures old(Room(n)) ==> grown
    {
      hide Heap, User, SameOutside, IsLive, Live, Chunk, Tiled, Given;
      HeapTiles(mem[..], table[..], Top(), S, L);
      LiveOf(mem[..], S, b);
      var tmp := n - Size(mem[b]);
      ChunkMonotone(PAGE, tmp, n);
      var b1 := GetMem(tmp);
      grown := b1 != NULL;
      if grown {
        GrowTop(b, tmp);
        HeapTiles(mem[..], table[..], Top(), S, L);
        LiveOf(mem[..], S, b);
        UserSize(mem[..], b);
      }
    }

    method MoveTop(b: int, n: nat) returns (r: int)
      requires Valid() && b in Used() && b in S && MIN_BLOCK <= n && |Used()[b]| <= n - ALIGN - 1 && n % ALIGN == 0
      modifies this`memTop, this`brk, this`topBlock, this`L, this`S, mem, table
      ensures Valid() && (r == NULL <==> !old(Room(n)))
      ensures r == NULL ==> Used() == old(Used())
      ensures r != NULL ==> var c := r - ALIGN;
        && c in Used() && Used() == (old(Used()) - {b})[c := Used()[c]]
        && |Used()[c]| == n - ALIGN - 1 && old(Used()[b]) <= Used()[c]
      ensures r != NULL ==> r == ALIGN + old(Top())
      ensures topBlock == if r != NULL && b == old(topBlock) then r - ALIGN else old(topBlock)
    {
      hide Heap, User, SameOutside, IsLive, Live, FindFit, Chunk, Tiled;
      HeapTiles(mem[..], table[..], Top(), S, L);
      var b1 := GetMem(n);
      if b1 != NULL {
        InitBlock(b1, n);
        HeapTiles(mem[..], table[..], Top(), S, L);
        LiveOf(mem[..], S, b1);
        UserSize(mem[..], b1);
        MoveOver(b, b1);
        if b == topBlock {
          topBlock := b1;
        }
        return b1 + ALIGN;
      }
      return NULL;
    }

    /** Where a block that has to grow goes. */
    ghost function Grows(b: int, n: nat): int
      requires Fits() && memTop <= mem.Length && BASE <= b < mem.Length && 0 <= Size(mem[b])
      reads this, mem
    {
      var spot := ReallocSpot(mem[..], memTop, L, b, n);
      if spot.Upper? then b + ALIGN
      else if !spot.Nothing? && b != topBlock then spot.b + ALIGN
      else if memTop == b + Size(mem[b]) then b + ALIGN
      else if memTop != NULL then memTop + ALIGN else NULL
    }

    /** Where the block at b goes that has to grow: it stays if the block above can be
        taken in. Otherwise, unless it is the top block, it goes to the block below,
        and if that cannot be taken, to some free block. If none of these is large
        enough it grows at the top or goes there. */
    ghost predicate Regrown(b: int, n: nat, r: int)
      reads this, mem
    {
      var s := n - Extent(b);
      if UpperFree(mem[..], S, b, s) then r == b + ALIGN
      else if b != topBlock && LowerFree(mem[..], S, b, s) then LowerAt(mem[..], S, b, s, r - ALIGN)
      else if b != topBlock && SomeFits(mem[..], S, n) then FitsAt(mem[..], S, n, r - ALIGN)
      else r == ALIGN + if b + Extent(b) == memTop then b else memTop
    }

    lemma GrowsRight(b: int, n: nat)
      requires Valid() && b in Used() && b in S && !IsFree(mem[b]) && Size(mem[b]) < n
      ensures BASE <= b < mem.Length && 0 <= Size(mem[b]) && memTop <= mem.Length && Regrown(b, n, Grows(b, n))
    {
      hide Heap, Size, ReallocSpot, UpperFree, Extent, Live;
      ExtentIs(b);
      HeapTiles(mem[..], table[..], Top(), S, L);
      SpotIs(mem[..], table[..], Top(), memTop, S, L, b, n);
    }

    /** The block is large enough; all but the top block give back what is too much. */
    method InPlace(b: int, n: nat)
      requires Valid() && b in Used() && MIN_BLOCK <= n <= Extent(b) && n % ALIGN == 0
      modifies this`L, this`S, mem, table
      ensures Valid() && b in Used() && Used() == old(Used())[b := Used()[b]] && Used()[b] <= old(Used()[b])
      ensures Extent(b) == if b != topBlock && old(Extent(b)) > 2 * n then n else old(Extent(b))
    {
      hide Heap, User, SameOutside, IsLive, Live;
      HeapTiles(mem[..], table[..], Top(), S, L);
      LiveMember(mem[..], S, b);
      UserSize(mem[..], b);
      LiveOf(mem[..], S, b);
      if b != topBlock {
        MaybeSplit(b, n);
        HeapTiles(mem[..], table[..], Top(), S, L);
        LiveOf(mem[..], S, b);
        UserSize(mem[..], b);
      }
    }

    /** realloc. */
    method Realloc(p: int, size: nat) returns (r: int)
      requires Valid() && size <= MAX_REQUEST && (p != NULL ==> p - ALIGN in Used())
      modifies this`memTop, this`brk, this`topBlock, this`L, this`S, mem, table
      ensures Valid()
      ensures old(memTop) <= mem.Length
      ensures p != NULL ==> BASE <= p - ALIGN < mem.Length && 0 <= old(Size(mem[p - ALIGN]))
      ensures r == NULL ==> Used() == if p != NULL && size == 0 then old(Used()) - {p - ALIGN} else old(Used())
      ensures r != NULL ==> size > 0 && Resized(old(Used()), Used(), p, size, r)
      ensures r != NULL && old(memTop) != NULL ==> r == old(Predict(p, size))
      ensures p != NULL && size > 0 && old(Extent(p - ALIGN)) >= RealSize(size) ==> r == p
      ensures p != NULL && size > 0 && old(Extent(p - ALIGN)) >= RealSize(size) ==>
        var cut := p - ALIGN != old(topBlock) && old(Extent(p - ALIGN)) > 2 * RealSize(size);
        Extent(p - ALIGN) == if cut then RealSize(size) else old(Extent(p - ALIGN))
      ensures p != NULL && size > 0 && old(Extent(p - ALIGN)) < RealSize(size) ==>
        && (r == NULL <==> old(Stuck(p - ALIGN, RealSize(size))))
        && (r != NULL ==> old(Regrown(p - ALIGN, RealSize(size), r)))
        && (r != NULL ==> RealSize(size) <= Extent(r - ALIGN) <= 2 * RealSize(size))
      ensures p != NULL && size > 0 && !old(Tight(p - ALIGN, RealSize(size))) ==>
        memTop == old(memTop) && brk == old(brk)
      ensures r == NULL && size > 0 ==> !old(Room(RealSize(size))) && (p == NULL ==> !old(Fitting(RealSize(size))))
      ensures topBlock == if p != NULL && p - ALIGN == old(topBlock) && (r != NULL || size == 0)
        then (if r == NULL then NULL else r - ALIGN) else old(topBlock)
      ensures old(TopStands()) ==> TopStands()
      ensures r != NULL && p != NULL && p - ALIGN == old(topBlock) ==> r >= p
    {
      hide Heap, User, SameOutside, IsLive, RealSize, Live, FindFit, ReallocSpot, Chunk, Regrown, Wedged, Grows, Size;
      HeapTiles(mem[..], table[..], Top(), S, L);
      RealSizeFits(size);
      if p == NULL {
        r := Malloc(size);
        return;
      }
      LiveMember(mem[..], S, p - ALIGN);
      if size == 0 {
        Free(p);
        return NULL;
      }
      var b := p - ALIGN;
      var n := RealSize(size);
      ExtentIs(b);
      if Size(mem[b]) >= n {
        InPlace(b, n);
        return p;
      }
      GrowsRight(b, n);
      r := Move(b, n);
    }
  }

  /** Instead of the block of p the user now has that of r, with the old contents
      and room for size bytes; all other users have what they had. */
  ghost predicate Resized(u: map<int, seq<int>>, u': map<int, seq<int>>, p: int, size: nat, r: int) {
    var b, c := p - ALIGN, r - ALIGN;
    && c in u' && u' == (if p == NULL then u else u - {b})[c := u'[c]]
    && size <= WORD * |u'[c]|
    && (p != NULL ==> b in u && KeepsContents(u[b], u'[c]))
  }

  /** The new contents agree with the old ones as far as both go. */
  ghost predicate KeepsContents(v: seq<int>, w: seq<int>) {
    v <= w || w <= v
  }

  lemma SameAt(m: Words, S: set<int>, m': Words, S': set<int>, c: int, b: int)
    requires SameOutside(m, S, m', S', c, c + 1) && b != c && b in S && 0 <= b < |m| && !IsFree(m[b])
    ensures b in S' && 0 <= b < |m'| && m'[b] == m[b] && User(m', b) == User(m, b)
  {
    assert IsLive(m, S, b);
  }

  /** Joining with the block below leaves the contents of b in place. */
  lemma UserAt(m: Words, m': Words, b: int, c: int, k: nat)
    requires 0 <= c && c + MIN_BLOCK <= b && b < |m| == |m'| && b + k + ALIGN + 1 == b + Size(m[b]) <= |m|
    requires m' == m[c := UsedWord(b + Size(m[b]) - c)][b + Size(m[b]) - 1 := UsedWord(b + Size(m[b]) - c)]
    ensures m'[b + ALIGN..b + ALIGN + k] == User(m, b)
  {
  }

  /** If the block got no smaller and its words stayed, its contents are a prefix
      of what they are now. */
  lemma UserGrows(m: Words, m': Words, b: int)
    requires 0 <= b < |m| == |m'| && b + MIN_BLOCK <= b + Size(m[b]) <= b + Size(m'[b]) <= |m|
    requires forall x {:trigger m'[x]} :: b + ALIGN <= x < b + Size(m[b]) - 1 ==> m'[x] == m[x]
    ensures User(m, b) <= User(m', b)
  {
  }

  lemma CopiedUser(m: Words, m': Words, b: int, src: int, k: nat)
    requires 0 <= b < |m| && ALIGN + k + 1 <= Size(m[b]) <= |m| - b && 0 <= src && src + k <= |m|
    requires m' == Moved(m, b + ALIGN, src, k)
    ensures |m'| == |m| && m'[b] == m[b] && k <= |User(m', b)| && User(m', b)[..k] == m[src..src + k]
  {
  }

  lemma UserIs(m: Words, b: int)
    requires 0 <= b < |m| && b + MIN_BLOCK <= b + Size(m[b]) <= |m|
    ensures User(m, b) == m[b + ALIGN..b + ALIGN + (Size(m[b]) - ALIGN - 1)]
  {
  }

  lemma Prefixes(v: seq<int>, w: seq<int>, x: seq<int>, k: nat)
    requires |v| == k <= |w| && w[..k] == v && x <= w && k <= |x|
    ensures v <= x
  {
    assert x == w[..|x|];
    assert w[..|x|][..k] == w[..k];
  }

  lemma LiveMember(m: Words, S: set<int>, b: int)
    requires b in Live(m, S)
    ensures b in S && 0 <= b < |m| && !IsFree(m[b]) && Live(m, S)[b] == User(m, b)
  {
  }

  lemma SpotIs(m: Words, table: seq<int>, top: int, memTop: int, S: set<int>, L: seq<seq<int>>, b: int, n: nat)
    requires Heap(m, table, top, S, L) && b in S && !IsFree(m[b])
    requires Size(m[b]) < n && (memTop == top || (memTop == NULL && top == BASE))
    ensures BASE <= b < |m| && 0 <= Size(m[b]) && memTop <= |m|
    ensures var s := n - Size(m[b]);
            match ReallocSpot(m, memTop, L, b, n) {
              case Upper(c) => UpperFree(m, S, b, s) && c == b + Size(m[b])
              case Lower(c) => !UpperFree(m, S, b, s) && LowerAt(m, S, b, s, c)
              case Another(c) => !UpperFree(m, S, b, s) && !LowerFree(m, S, b, s) && FitsAt(m, S, n, c)
              case Nothing => !UpperFree(m, S, b, s) && !LowerFree(m, S, b, s) && !SomeFits(m, S, n)
            }
  {
    hide Listed, Coalesced, FindFit, Block, Follows;
    Neighbours(m, top, S, b);
    FindFitIs(m, table, top, S, L, n);
    forall c | c in S && c + Size(m[c]) == b
      ensures b > BASE && m[b - 1] == m[c]
    {
      UsedBefore(m, top, S, b, c);
    }
  }

  /** The spot found can be used, and there is one exactly if the block is not wedged. */
  lemma SpotSays(m: Words, table: seq<int>, top: int, memTop: int, S: set<int>, L: seq<seq<int>>, b: int, n: nat,
      fixed: bool)
    requires Heap(m, table, top, S, L) && b in S && !IsFree(m[b])
    requires Size(m[b]) < n && (memTop == top || (memTop == NULL && top == BASE))
    ensures BASE <= b < |m| && 0 <= Size(m[b]) && memTop <= |m|
    ensures Usable(m, S, b, n, ReallocSpot(m, memTop, L, b, n))
    ensures var spot := ReallocSpot(m, memTop, L, b, n);
            Wedged(m, S, b, n - Size(m[b]), n, fixed) <==> spot.Nothing? || (fixed && !spot.Upper?)
  {
    hide ReallocSpot, Heap, Size;
    SpotIs(m, table, top, memTop, S, L, b, n);
  }

  lemma {:induction false} ChunkMonotone(sz: nat, a: nat, b: nat)
    requires 0 < sz && a <= b
    ensures Chunk(sz, a) <= Chunk(sz, b)
    decreases b - sz
  {
    if sz < a {
      ChunkMonotone(2 * sz, a, b);
    }
  }

  /** The blocks below e cover every word of the heap below e. */
  lemma {:induction false} Covered(m: Words, top: int, S: set<int>, e: int, x: int) returns (a: int)
    requires Tiled(m, top, S) && (e in S || e == top) && BASE <= x < e
    ensures a in S && a <= x < a + Size(m[a]) <= e
    decreases e
  {
    assert Follows(m, S, e);
    a := e - Size(m[e - 1]);
    assert Block(m, top, S, a);
    if x < a {
      a := Covered(m, top, S, a, x);
    }
  }

  /** Every word of the heap lies in exactly one block. */
  lemma TiledExactly(m: Words, top: int, S: set<int>, x: int) returns (a: int)
    requires Tiled(m, top, S) && BASE <= x < top
    ensures a in S && a <= x < a + Size(m[a]) <= |m| && m[a + Size(m[a]) - 1] == m[a]
    ensures forall c {:trigger c in S} :: c in S && c <= x < c + Size(m[c]) ==> c == a
  {
    a := Covered(m, top, S, top, x);
    assert Block(m, top, S, a);
    OnlyBlock(m, top, S, a);
  }

  /** What two users can write to lies inside the heap and does not overlap. */
  lemma UsersApart(m: Words, top: int, S: set<int>, a: int, c: int)
    requires Tiled(m, top, S) && a in Live(m, S) && c in Live(m, S) && a < c
    ensures BASE < a + ALIGN && a + ALIGN + |Live(m, S)[a]| < c < c + ALIGN + |Live(m, S)[c]| < top
  {
    hide Follows;
    Apart(m, top, S, a, c);
    Apart(m, top, S, c, a);
    UserSize(m, a);
    UserSize(m, c);
  }

  /** Free neighbours are always joined. */
  lemma NeverTwoFree(m: Words, table: seq<int>, top: int, S: set<int>, L: seq<seq<int>>, a: int, c: int)
    requires Heap(m, table, top, S, L) && a in S && c in S && c == a + Size(m[a])
    ensures !(IsFree(m[a]) && IsFree(m[c]))
  {
    assert Alone(m, S, a);
  }

  /** A free block stands in exactly one place of one list: that for the
      logarithm of its size. */
  lemma ListedOnce(m: Words, table: seq<int>, top: int, S: set<int>, L: seq<seq<int>>, a: int) returns (k: nat)
    requires Heap(m, table, top, S, L) && a in S && IsFree(m[a])
    ensures m[a] >= 0 && Log2(m[a]) < BINS && k < |L[Log2(m[a])]| && L[Log2(m[a])][k] == a
    ensures forall i, j {:trigger L[i][j]} :: 0 <= i < BINS && 0 <= j < |L[i]| && L[i][j] == a ==>
      i == Log2(m[a]) && j == k
  {
    hide Log2, Block, Follows;
    k := PlaceOf(m, table, top, S, L, a);
    assert Chain(m, table[Log2(m[a])], L[Log2(m[a])]);
    forall i, j {:trigger L[i][j]} | 0 <= i < BINS && 0 <= j < |L[i]| && L[i][j] == a
      ensures i == Log2(m[a]) && j == k
    {
      assert Filed(m, S, L[i][j], i);
    }
  }

  /** Following the list of bin i. */
  lemma ListAt(m: Words, table: seq<int>, S: set<int>, L: seq<seq<int>>, n: int, i: nat, k: nat)
    requires Listed(m, table, S, L) && i < BINS && k <= |L[i]|
    ensures table[i] == Head(L[i])
    ensures k < |L[i]| ==> var a := L[i][k];
            && BASE <= a && a + 2 < |m| && m[a + 1] == (if k + 1 < |L[i]| then L[i][k + 1] else NULL)
            && FitIn(m, L[i], n, k) == if n <= Size(m[a]) then a else FitIn(m, L[i], n, k + 1)
    ensures k == |L[i]| ==> FitIn(m, L[i], n, k) == NULL
  {
    hide Log2, Findable;
    assert Chain(m, table[i], L[i]);
    if k < |L[i]| {
      assert Filed(m, S, L[i][k], i) && LinkAt(m, L[i], k);
    }
  }

  lemma UserSize(m: Words, b: int)
    requires 0 <= b < |m| && b + MIN_BLOCK <= b + Size(m[b]) <= |m|
    ensures |User(m, b)| == Size(m[b]) - ALIGN - 1
  {
  }

  lemma TakenLive(m: Words, m': Words, S: set<int>, b: int)
    requires SameOutside(m, S, m', S, b, b + 1) && b in S && 0 <= b < |m| == |m'| && IsFree(m[b]) && !IsFree(m'[b])
    ensures b !in Live(m, S) && Live(m', S) == Live(m, S)[b := User(m', b)]
  {
    LiveOne(m, S, m', S, b, b + 1, b);
  }

  /** A block of new memory on top. */
  lemma NewHeap(m: Words, m': Words, table: seq<int>, p: int, S: set<int>, L: seq<seq<int>>, n: nat)
    requires Heap(m, table, p, S, L) && n >= MIN_BLOCK && n % ALIGN == 0 && BASE <= p && p + n <= |m|
    requires m' == m[p := UsedWord(n)][p + n - 1 := UsedWord(n)]
    ensures Heap(m', table, p + n, S + {p}, L) && p !in Live(m, S)
    ensures Live(m', S + {p}) == Live(m, S)[p := User(m', p)]
  {
    hide Follows, Listed, Coalesced, Live, SameOutside, User, Reworked, UsedKept;
    var S', e := S + {p}, p + n;
    NewReworked(m, m', p, S, n);
    assert S' == (set a | a in S && !(p <= a < e)) + {p};
    CarveTiled(m, m', p, e, S, S', p, e);
    ReworkHeap(m, m', table, p, e, S, S', L, p, e);
    KeptOutside(m, m', p, S, S', p, e);
    LiveHas(m, S);
    assert !IsLive(m, S, p);
    LiveOne(m, S, m', S', p, e, p);
  }

  lemma NewReworked(m: Words, m': Words, p: int, S: set<int>, n: nat)
    requires Tiled(m, p, S) && n >= MIN_BLOCK && n % ALIGN == 0 && BASE <= p && p + n <= |m|
    requires m' == m[p := UsedWord(n)][p + n - 1 := UsedWord(n)]
    ensures Reworked(m, m', S, S + {p}, p, p + n) && EndsKept(m, m', S, p, p + n)
  {
    hide Follows;
    forall a | a in S
      ensures a + Size(m[a]) <= p && m'[a] == m[a] && 0 < a + Size(m[a])
      ensures m'[a + Size(m[a]) - 1] == m[a + Size(m[a]) - 1]
    {
      Apart(m, p, S, a, a);
    }
  }

  /** The last block takes in new memory. */
  lemma GrownHeap(m: Words, m': Words, table: seq<int>, p: int, top: int, S: set<int>, L: seq<seq<int>>, b: int)
    requires Heap(m, table, p, S, L) && b in S && !IsFree(m[b])
    requires b + Size(m[b]) == p < top <= |m| && (top - p) % ALIGN == 0
    requires m' ==
      m[p := UsedWord(top - p)][top - 1 := UsedWord(top - p)][b := UsedWord(top - b)][top - 1 := UsedWord(top - b)]
    ensures Heap(m', table, top, S, L)
    ensures User(m, b) <= User(m', b) && Live(m', S) == Live(m, S)[b := User(m', b)]
  {
    hide Follows, Listed, Coalesced, Live, SameOutside, Reworked, UsedKept;
    assert Block(m, p, S, b);
    GrownReworked(m, m', p, top, S, b);
    CarveTiled(m, m', p, top, S, S, b, top);
    ReworkHeap(m, m', table, p, top, S, S, L, b, top);
    KeptOutside(m, m', p, S, S, b, top);
    LiveOne(m, S, m', S, b, top, b);
    UserGrows(m, m', b);
  }

  lemma GrownReworked(m: Words, m': Words, p: int, top: int, S: set<int>, b: int)
    requires Tiled(m, p, S) && b in S && !IsFree(m[b]) && b + Size(m[b]) == p < top <= |m|
    requires m' ==
      m[p := UsedWord(top - p)][top - 1 := UsedWord(top - p)][b := UsedWord(top - b)][top - 1 := UsedWord(top - b)]
    ensures Reworked(m, m', S, S, b, top) && EndsKept(m, m', S, b, top)
    ensures S == (set a | a in S && !(b <= a < top)) + {b}
  {
    hide Follows;
    OnlyBlock(m, p, S, b);
    forall a | a in S && a != b
      ensures 0 < a + Size(m[a]) <= b && m'[a] == m[a] && m'[a + Size(m[a]) - 1] == m[a + Size(m[a]) - 1]
    {
      Apart(m, p, S, a, b);
    }
  }

  /** Two used blocks become one. */
  lemma JoinedHeap(m: Words, m': Words, table: seq<int>, top: int, S: set<int>, L: seq<seq<int>>, b: int, c: int)
    requires Heap(m, table, top, S, L) && b in S && c in S && !IsFree(m[b]) && !IsFree(m[c]) && c == b + Size(m[b])
    requires 0 < Size(m[c]) && c + Size(m[c]) <= |m| && 0 < Size(m[b])
    requires var n := Size(m[b]) + Size(m[c]); m' == m[b := UsedWord(n)][b + n - 1 := UsedWord(n)]
    ensures Heap(m', table, top, S - {c}, L)
    ensures User(m, b) <= User(m', b) && Live(m', S - {c}) == (Live(m, S) - {c})[b := User(m', b)]
  {
    hide Tiled, Listed, Coalesced, Live, SameOutside, Reworked, UsedKept, User, Carved, IsLive, WordOk;
    HeapTiles(m, table, top, S, L);
    var S', e := S - {c}, c + Size(m[c]);
    JoinedReworked(m, m', top, S, b, c);
    JoinedCarved(m, m', top, S, b, c);
    CarveTiled(m, m', top, top, S, S', b, e);
    ReworkHeap(m, m', table, top, top, S, S', L, b, e);
    KeptOutside(m, m', top, S, S', b, e);
    JoinedLives(m, m', S, b, c);
    LiveJoin(m, S, m', S', b, e, c);
    JoinedUser(m, m', b, c);
  }

  lemma JoinedCarved(m: Words, m': Words, top: int, S: set<int>, b: int, c: int)
    requires Tiled(m, top, S) && b in S && c in S && !IsFree(m[b]) && !IsFree(m[c]) && c == b + Size(m[b])
    requires 0 < Size(m[c]) && c + Size(m[c]) <= |m| && 0 < Size(m[b])
    requires var n := Size(m[b]) + Size(m[c]); m' == m[b := UsedWord(n)][b + n - 1 := UsedWord(n)]
    ensures b + MIN_BLOCK <= c && Carved(m, m', top, top, S, S - {c}, b, c + Size(m[c]))
  {
    hide Follows;
    assert Block(m, top, S, b) && Block(m, top, S, c);
    JoinedReworked(m, m', top, S, b, c);
  }

  lemma JoinedLives(m: Words, m': Words, S: set<int>, b: int, c: int)
    requires b in S && b < c && 0 <= b < |m| == |m'| && !IsFree(m'[b])
    requires 0 <= c < |m| && forall a {:trigger a in S} :: a in S && b <= a < c + Size(m[c]) ==> a == b || a == c
    ensures var S', e := S - {c}, c + Size(m[c]);
            && IsLive(m', S', b)
            && (forall a {:trigger IsLive(m, S, a)} :: b <= a < e && IsLive(m, S, a) ==> a == b || a == c)
            && (forall a {:trigger IsLive(m', S', a)} :: b <= a < e && IsLive(m', S', a) ==> a == b)
  {
  }

  lemma JoinedUser(m: Words, m': Words, b: int, c: int)
    requires 0 <= b < |m| && b + MIN_BLOCK <= b + Size(m[b]) == c < |m| && 0 < Size(m[c]) && c + Size(m[c]) <= |m|
    requires var n := Size(m[b]) + Size(m[c]); m' == m[b := UsedWord(n)][b + n - 1 := UsedWord(n)]
    ensures User(m, b) <= User(m', b)
  {
    UserGrows(m, m', b);
  }

  lemma JoinedReworked(m: Words, m': Words, top: int, S: set<int>, b: int, c: int)
    requires Tiled(m, top, S) && b in S && c in S && !IsFree(m[b]) && !IsFree(m[c]) && c == b + Size(m[b])
    requires 0 < Size(m[c]) && c + Size(m[c]) <= |m| && 0 < Size(m[b])
    requires var n := Size(m[b]) + Size(m[c]); m' == m[b := UsedWord(n)][b + n - 1 := UsedWord(n)]
    ensures var e := c + Size(m[c]);
            && Reworked(m, m', S, S - {c}, b, e) && EndsKept(m, m', S, b, e)
            && (forall a {:trigger a in S} :: a in S && b <= a < e ==> a == b || a == c)
            && S - {c} == (set a | a in S && !(b <= a < e)) + {b}
  {
    hide Follows;
    OnlyBlock(m, top, S, b);
    OnlyBlock(m, top, S, c);
    forall a | a in S && a != b && a != c
      ensures 0 < a + Size(m[a]) && m'[a] == m[a]
      ensures a + Size(m[a]) <= |m| ==> m'[a + Size(m[a]) - 1] == m[a + Size(m[a]) - 1]
    {
      Apart(m, top, S, a, b);
      Apart(m, top, S, a, c);
    }
  }

  /** Writing to the user part of a used block. */
  lemma CopiedHeap(m: Words, m': Words, table: seq<int>, top: int, S: set<int>, L: seq<seq<int>>, b: int, src: int,
      k: nat)
    requires Heap(m, table, top, S, L) && b in S && !IsFree(m[b]) && ALIGN + k + 1 <= Size(m[b])
    requires 0 <= b && b + Size(m[b]) <= |m| && 0 <= src && src + k <= |m| && m' == Moved(m, b + ALIGN, src, k)
    ensures Heap(m', table, top, S, L) && Live(m', S) == Live(m, S)[b := User(m', b)]
  {
    hide Follows, Listed, Coalesced, Live, SameOutside, Reworked, UsedKept;
    var e := b + Size(m[b]);
    assert Block(m, top, S, b);
    CopiedReworked(m, m', top, S, b, k);
    CarveTiled(m, m', top, top, S, S, b, e);
    ReworkHeap(m, m', table, top, top, S, S, L, b, e);
    KeptOutside(m, m', top, S, S, b, e);
    LiveOne(m, S, m', S, b, e, b);
  }

  lemma CopiedReworked(m: Words, m': Words, top: int, S: set<int>, b: int, k: nat)
    requires Tiled(m, top, S) && b in S && !IsFree(m[b]) && ALIGN + k + 1 <= Size(m[b]) && |m'| == |m|
    requires forall x {:trigger m'[x]} :: 0 <= x < |m| && !(b + ALIGN <= x < b + ALIGN + k) ==> m'[x] == m[x]
    ensures var e := b + Size(m[b]);
            && Reworked(m, m', S, S, b, e) && EndsKept(m, m', S, b, e)
            && (forall a {:trigger a in S} :: a in S && b <= a < e ==> a == b)
            && S == (set a | a in S && !(b <= a < e)) + {b}
  {
    hide Follows;
    OnlyBlock(m, top, S, b);
    assert Block(m, top, S, b);
    forall a | a in S && a != b
      ensures 0 < a + Size(m[a]) && m'[a] == m[a]
      ensures a + Size(m[a]) <= |m| ==> m'[a + Size(m[a]) - 1] == m[a + Size(m[a]) - 1]
    {
      Apart(m, top, S, a, b);
    }
  }

  lemma LiveOf(m: Words, S: set<int>, b: int)
    requires b in S && 0 <= b < |m| && !IsFree(m[b])
    ensures b in Live(m, S) && Live(m, S)[b] == User(m, b) && Live(m, S) == Live(m, S)[b := User(m, b)]
  {
  }

  /** What a used block holds tells its size. */
  lemma LiveSays(m: Words, S: set<int>, b: int, n: int, w: seq<int>)
    requires b in Live(m, S) && Live(m, S)[b] == w && |w| == n - ALIGN - 1 && n >= MIN_BLOCK
    requires forall a {:trigger a in S} :: a in S ==> 0 <= a < |m| && WordOk(m[a]) && a + Size(m[a]) <= |m|
    ensures b in S && 0 <= b < |m| && m[b] == UsedWord(n) && User(m, b) == w
  {
  }

  /** Cutting a used block in two leaves a heap; the front holds what it held. */
  lemma SplitHeap(m: Words, m': Words, table: seq<int>, top: int, S: set<int>, L: seq<seq<int>>, b: int, f: int)
    requires Heap(m, table, top, S, L) && b in S && !IsFree(m[b])
    requires b + MIN_BLOCK <= f && f + MIN_BLOCK <= b + Size(m[b]) <= |m| && (f - b) % ALIGN == 0
    requires var n, r := Size(m[b]), f - b;
      m' == m[f := UsedWord(n - r)][b + n - 1 := UsedWord(n - r)][b := UsedWord(r)][f - 1 := UsedWord(r)]
    ensures Heap(m', table, top, S + {f}, L) && m'[b] == UsedWord(f - b) && !IsFree(m'[f])
    ensures User(m', b) <= User(m, b) && |User(m', b)| == f - b - ALIGN - 1
    ensures Live(m', S + {f}) - {f} == Live(m, S)[b := User(m', b)]
  {
    hide Follows, Listed, Coalesced, Live, SameOutside, Reworked, UsedKept, User, Cut;
    var n, r := Size(m[b]), f - b;
    var e := b + n;
    assert Block(m, top, S, b);
    OnlyBlock(m, top, S, b);
    HalvedIs(m, m', b, f);
    SplitEnds(m, m', top, S, b, f);
    SplitTiled(m, m', top, S, b, f);
    SplitReworked(m, m', top, S, b, f);
    ReworkHeap(m, m', table, top, top, S, S + {f}, L, b, e);
    KeptOutside(m, m', top, S, S + {f}, b, e);
    LiveSplit(m, S, m', S + {f}, b, e, f);
    SplitUser(m, m', b, f);
  }

  /** The words of m and those after the block at b is cut in two at f. */
  ghost predicate Halved(m: Words, m': Words, b: int, f: int) {
    && 0 <= b < |m| == |m'| && b + MIN_BLOCK <= f && f + MIN_BLOCK <= b + Size(m[b]) <= |m|
    && var e := b + Size(m[b]);
      && m'[b] == m'[f - 1] == UsedWord(f - b) && m'[f] == m'[e - 1] == UsedWord(e - f)
      && forall x {:trigger m'[x]} :: 0 <= x < |m| && x != b && x != f - 1 && x != f && x != e - 1 ==> m'[x] == m[x]
  }

  lemma HalvedIs(m: Words, m': Words, b: int, f: int)
    requires 0 <= b < |m| && b + MIN_BLOCK <= f && f + MIN_BLOCK <= b + Size(m[b]) <= |m|
    requires var n, r := Size(m[b]), f - b;
      m' == m[f := UsedWord(n - r)][b + n - 1 := UsedWord(n - r)][b := UsedWord(r)][f - 1 := UsedWord(r)]
    ensures Halved(m, m', b, f)
  {
  }

  lemma SplitUser(m: Words, m': Words, b: int, f: int)
    requires Halved(m, m', b, f)
    ensures User(m', b) <= User(m, b) && |User(m', b)| == f - b - ALIGN - 1
  {
    assert User(m', b) == User(m, b)[..f - b - ALIGN - 1];
  }

  lemma SplitEnds(m: Words, m': Words, top: int, S: set<int>, b: int, f: int)
    requires Tiled(m, top, S) && b in S
    requires (f - b) % ALIGN == 0 && Halved(m, m', b, f)
    ensures Cut(m, m', top, S, b, f)
  {
    hide Follows;
    assert Block(m, top, S, b);
    forall a | a in S && !(b <= a < b + Size(m[b]))
      ensures m'[a] == m[a] && (0 < a + Size(m[a]) <= |m| ==> m'[a + Size(m[a]) - 1] == m[a + Size(m[a]) - 1])
    {
      Apart(m, top, S, a, b);
    }
  }

  lemma SplitReworked(m: Words, m': Words, top: int, S: set<int>, b: int, f: int)
    requires Tiled(m, top, S) && b in S && !IsFree(m[b])
    requires (f - b) % ALIGN == 0 && Halved(m, m', b, f)
    ensures Reworked(m, m', S, S + {f}, b, b + Size(m[b]))
  {
    hide Follows;
    OnlyBlock(m, top, S, b);
  }

  lemma SolidBounds(m: Words, top: int, S: set<int>, b: int, e: int)
    requires Solid(m, top, S, b, e)
    ensures b in S && BASE <= b < |m| && b + MIN_BLOCK <= e <= |m|
  {
  }

  lemma SameAll(m: Words, S: set<int>, x: int)
    ensures SameOutside(m, S, m, S, x, x)
  {
  }

  /** m' is m with the free block at b1 marked as used. */
  ghost predicate Woken(m: Words, m': Words, top: int, S: set<int>, b1: int) {
    && Tiled(m, top, S) && Coalesced(m, S) && Tiled(m', top, S) && |m'| == |m|
    && b1 in S && IsFree(m[b1]) && m'[b1] == UsedWord(Size(m[b1]))
    && (forall a {:trigger a in S} :: a in S && a != b1 ==> m'[a] == m[a])
    && SameOutside(m, S, m', S, b1, b1 + 1)
  }

  lemma TakenAbove(m: Words, m': Words, top: int, S: set<int>, b: int, b1: int)
    requires Woken(m, m', top, S, b1) && b in S && !IsFree(m[b]) && b1 == b + Size(m[b])
    ensures var e := b1 + Size(m[b1]);
            && Solid(m', top, S, b, e) && (e in S ==> !IsFree(m'[e]))
            && SameOutside(m, S, m', S, b1, e)
            && forall a {:trigger IsLive(m, S, a)} :: b1 <= a < e ==> !IsLive(m, S, a)
  {
    hide Block, Follows, WordOk, User;
    Neighbours(m, top, S, b);
    Neighbours(m, top, S, b1);
    OnlyBlock(m, top, S, b1);
    assert Alone(m, S, b1);
    SolidOne(m', top, S, b);
    SolidOne(m', top, S, b1);
    SolidTwo(m', top, S, b, b1, b1 + Size(m[b1]));
  }

  lemma TakenBelow(m: Words, m': Words, top: int, S: set<int>, b: int, c: int, e: int)
    requires Woken(m, m', top, S, c) && Solid(m, top, S, b, e) && (e in S ==> !IsFree(m[e])) && c + Size(m[c]) == b
    ensures Pushable(m', top, S, c, e)
    ensures SameOutside(m, S, m', S, c, b)
    ensures forall a {:trigger IsLive(m, S, a)} :: c <= a < b ==> !IsLive(m, S, a)
  {
    hide Block, Follows, WordOk, User;
    Neighbours(m, top, S, c);
    OnlyBlock(m, top, S, c);
    UsedBelow(m, top, S, c);
    SolidOne(m', top, S, c);
    SolidTwo(m', top, S, c, b, e);
  }

  lemma NoneBelow(m: Words, top: int, S: set<int>, b: int, e: int)
    requires Solid(m, top, S, b, e) && (e in S ==> !IsFree(m[e])) && (b - 1 > BASE ==> !IsFree(m[b - 1]))
    ensures Pushable(m, top, S, b, e)
  {
    BelowIsUsed(m, top, S, b);
  }

  /** A free block has a used one below it. */
  lemma UsedBelow(m: Words, top: int, S: set<int>, c: int)
    requires Tiled(m, top, S) && Coalesced(m, S) && c in S && IsFree(m[c])
    ensures forall a {:trigger a in S} :: a in S && a + Size(m[a]) == c ==> !IsFree(m[a])
  {
    forall a | a in S && a + Size(m[a]) == c
      ensures !IsFree(m[a])
    {
      assert Alone(m, S, a);
    }
  }

  lemma BelowIsUsed(m: Words, top: int, S: set<int>, b: int)
    requires Tiled(m, top, S) && b in S && (b - 1 > BASE ==> !IsFree(m[b - 1]))
    ensures forall a {:trigger a in S} :: a in S && a + Size(m[a]) == b ==> !IsFree(m[a])
  {
    forall a | a in S && a + Size(m[a]) == b
      ensures !IsFree(m[a])
    {
      UsedBefore(m, top, S, b, a);
      Neighbours(m, top, S, a);
    }
  }

  lemma PushableBounds(m: Words, top: int, S: set<int>, b: int, e: int)
    requires Pushable(m, top, S, b, e)
    ensures BASE <= b && b + MIN_BLOCK <= e <= |m|
    ensures forall a {:trigger a in S} :: a in S && b <= a < e ==> !IsFree(m[a])
  {
  }

  /** m0 to m1 took in the block above, m1 to m2 the one below, and then [c, e)
      was freed. */
  lemma FreedLive(m0: Words, S0: set<int>, m1: Words, m2: Words, m3: Words, S3: set<int>, b: int, u: int, c: int,
      e: int)
    requires c <= b < u <= e
    requires SameOutside(m0, S0, m1, S0, u, e) && SameOutside(m1, S0, m2, S0, c, b) && SameOutside(m2, S0, m3, S3, c, e)
    requires forall a {:trigger IsLive(m0, S0, a)} :: u <= a < e ==> !IsLive(m0, S0, a)
    requires forall a {:trigger IsLive(m1, S0, a)} :: c <= a < b ==> !IsLive(m1, S0, a)
    requires forall a {:trigger a in S0} :: a in S0 && b <= a < u ==> a == b
    requires c in S3 && 0 <= c < |m3| && IsFree(m3[c])
    requires forall a {:trigger a in S3} :: a in S3 && c <= a < e ==> a == c
    ensures Live(m3, S3) == Live(m0, S0) - {b}
  {
    hide User;
    forall a | c <= a < e && IsLive(m0, S0, a)
      ensures a == b
    {
      assert IsLive(m1, S0, a);
    }
    SameOutsideTrans(m0, S0, m1, S0, m2, S0, u, e, c, e);
    SameOutsideTrans(m0, S0, m2, S0, m3, S3, c, e, c, e);
    LiveNone(m0, S0, m3, S3, c, e, b);
  }
}
