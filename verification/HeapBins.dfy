/** The free lists of the allocator: doubly linked through the free blocks, one
    list for each power of two. */
module HeapBins {
  import opened HeapBlocks

  /** The number of bits in a size. */
  const BINS := 32

  // Truncated logarithm --------------------------------------------------------------------

  function Log2(x: nat): nat {
    if x < 2 then 0 else 1 + Log2(x / 2)
  }

  function Pow2(n: nat): nat {
    if n == 0 then 1 else 2 * Pow2(n - 1)
  }

  lemma {:induction false} Log2Floors(x: nat)
    requires x > 0
    ensures Pow2(Log2(x)) <= x < Pow2(Log2(x) + 1)
  {
    if x >= 2 {
      Log2Floors(x / 2);
    }
  }

  lemma {:induction false} Log2Monotone(x: nat, y: nat)
    requires x <= y
    ensures Log2(x) <= Log2(y)
    decreases y
  {
    if x >= 2 {
      Log2Monotone(x / 2, y / 2);
    }
  }

  lemma {:induction false} Log2Below(x: nat, n: nat)
    requires 0 < n && x < Pow2(n)
    ensures Log2(x) < n
    decreases n
  {
    if x >= 2 {
      Log2Below(x / 2, n - 1);
    }
  }

  /** Any size of a heap of less than four gigabytes has a bin. */
  lemma Log2Fits(x: nat)
    requires x < 0x1_0000_0000
    ensures Log2(x) < BINS
  {
    assert Pow2(8) == 256;
    assert Pow2(16) == 65536;
    assert Pow2(24) == 0x100_0000;
    assert Pow2(32) == 0x1_0000_0000;
    Log2Below(x, 32);
  }

  lemma Log2Sixth(x: nat)
    requires x >= 64
    ensures Log2(x) == 6 + Log2(x / 64)
  {
    Log2Third(x);
    Log2Third(x / 8);
    assert x / 8 / 8 == x / 64;
  }

  lemma Log2Third(x: nat)
    requires x >= 8
    ensures Log2(x) == 3 + Log2(x / 8)
  {
    assert Log2(x) == 1 + Log2(x / 2);
    assert Log2(x / 2) == 1 + Log2(x / 2 / 2);
    assert Log2(x / 2 / 2) == 1 + Log2(x / 2 / 2 / 2);
    assert x / 2 / 2 / 2 == x / 8;
  }

  /** log2: count shifts, starting at six for numbers that have that many. */
  method FindLog2(x: nat) returns (y: nat)
    ensures y == Log2(x)
  {
    var z := x / 64;
    if z != 0 {
      y := 6;
      Log2Sixth(x);
    } else {
      z := x;
      y := 0;
    }
    z := z / 2;
    while z != 0
      invariant z >= 0 && Log2(x) == y + if z == 0 then 0 else 1 + Log2(z)
      decreases z
    {
      y := y + 1;
      z := z / 2;
    }
  }

  // Lists ------------------------------------------------------------------------------------

  ghost predicate LinkAt(m: Words, l: seq<int>, k: int)
    requires 0 <= k < |l|
  {
    && 0 <= l[k] < |m| - 2
    && m[l[k] + 1] == (if k + 1 < |l| then l[k + 1] else NULL)
    && m[l[k] + 2] == (if k > 0 then l[k - 1] else NULL)
  }

  function Head(l: seq<int>): int {
    if l == [] then NULL else l[0]
  }

  /** The blocks of l, linked in this order. */
  ghost predicate Chain(m: Words, head: int, l: seq<int>) {
    && head == Head(l)
    && (forall k {:trigger LinkAt(m, l, k)} :: 0 <= k < |l| ==> LinkAt(m, l, k))
    && (forall j, k :: 0 <= j < k < |l| ==> l[j] != l[k])
  }

  /** a is a free block whose size belongs in bin i. */
  ghost predicate Filed(m: Words, S: set<int>, a: int, i: int) {
    a in S && BASE <= a < |m| && a % ALIGN == 0 && IsFree(m[a]) && m[a] >= 0 && Log2(m[a]) == i
  }

  /** The list for its size holds the block at a, if that is free. */
  ghost predicate Findable(m: Words, L: seq<seq<int>>, a: int) {
    0 <= a < |m| && IsFree(m[a]) ==> m[a] >= 0 && Log2(m[a]) < |L| && a in L[Log2(m[a])]
  }

  /** The lists L, with their heads in the table, hold exactly the free blocks. */
  ghost predicate Listed(m: Words, table: seq<int>, S: set<int>, L: seq<seq<int>>) {
    && |table| == |L| == BINS
    && (forall i {:trigger L[i]} :: 0 <= i < BINS ==> Chain(m, table[i], L[i]))
    && (forall i, k {:trigger L[i][k]} :: 0 <= i < BINS && 0 <= k < |L[i]| ==> Filed(m, S, L[i][k], i))
    && (forall a {:trigger Findable(m, L, a)} :: a in S ==> Findable(m, L, a))
  }

  function Without(l: seq<int>, k: nat): seq<int>
    requires k < |l|
  {
    l[..k] + l[k + 1..]
  }

  lemma ChainUnlinked(m: Words, m': Words, head: int, l: seq<int>, k: nat)
    requires Chain(m, head, l) && k < |l| && |m'| == |m|
    requires LinkAt(m, l, k)
    requires forall j {:trigger LinkAt(m, l, j)} :: 0 <= j < |l| && j != k && LinkAt(m, l, j) ==>
      && m'[l[j] + 1] == (if j + 1 == k then m[l[k] + 1] else m[l[j] + 1])
      && m'[l[j] + 2] == (if j == k + 1 then m[l[k] + 2] else m[l[j] + 2])
    ensures Chain(m', if k == 0 then m[l[0] + 1] else head, Without(l, k))
  {
    var l' := Without(l, k);
    forall j | 0 <= j < |l'|
      ensures LinkAt(m', l', j)
    {
      var i := if j < k then j else j + 1;
      assert l'[j] == l[i];
      assert LinkAt(m, l, i);
    }
  }

  lemma ChainPushed(m: Words, m': Words, head: int, l: seq<int>, b: int)
    requires Chain(m, head, l) && |m'| == |m| && b !in l && 0 <= b < |m| - 2
    requires m'[b + 1] == head && m'[b + 2] == NULL
    requires forall j {:trigger LinkAt(m, l, j)} :: 0 <= j < |l| && LinkAt(m, l, j) ==>
      && m'[l[j] + 1] == m[l[j] + 1]
      && m'[l[j] + 2] == (if j == 0 then b else m[l[j] + 2])
    ensures Chain(m', b, [b] + l)
  {
    var l' := [b] + l;
    forall j | 0 <= j < |l'|
      ensures LinkAt(m', l', j)
    {
      if j > 0 {
        assert LinkAt(m, l, j - 1);
      }
    }
  }

  lemma ChainKept(m: Words, m': Words, head: int, l: seq<int>)
    requires Chain(m, head, l) && |m'| == |m|
    requires forall j {:trigger LinkAt(m, l, j)} :: 0 <= j < |l| && LinkAt(m, l, j) ==>
      m'[l[j] + 1] == m[l[j] + 1] && m'[l[j] + 2] == m[l[j] + 2]
    ensures Chain(m', head, l)
  {
    forall j | 0 <= j < |l|
      ensures LinkAt(m', l, j)
    {
      assert LinkAt(m, l, j);
    }
  }

  // Taking a block off its list and putting one on ------------------------------------------

  predicate Unlinkable(m: Words, b: int) {
    && 0 <= b && b + 2 < |m| && 0 < Size(m[b]) && b + Size(m[b]) <= |m|
    && (m[b + 1] == NULL || 0 <= m[b + 1] < |m| - 2)
    && (m[b + 2] == NULL || 0 <= m[b + 2] < |m| - 1)
  }

  /** Memory after the block at b was unlinked and tagged as used. */
  function Unlinked(m: Words, b: int): (r: Words)
    requires Unlinkable(m, b)
    ensures |r| == |m|
  {
    var next, prev, n := m[b + 1], m[b + 2], Size(m[b]);
    var m1 := if next != NULL then m[next + 2 := prev] else m;
    var m2 := if prev != NULL then m1[prev + 1 := next] else m1;
    m2[b := UsedWord(n)][b + n - 1 := UsedWord(n)]
  }

  /** Memory after [b, b + n) was tagged free and linked in before head. */
  function Pushed(m: Words, b: int, n: int, head: int): (r: Words)
    requires 0 <= b && 3 < n && b + n <= |m| && (head == NULL || 0 <= head < |m| - 2)
    ensures |r| == |m|
  {
    var m1 := m[b := FreeWord(n)][b + n - 1 := FreeWord(n)][b + 1 := head][b + 2 := NULL];
    if head != NULL then m1[head + 2 := b] else m1
  }

  // The whole heap -----------------------------------------------------------------------------

  /** The heap between calls: tiled by blocks, no two adjacent ones free, and
      every free block in the list for its size. */
  ghost predicate Heap(m: Words, table: seq<int>, top: int, S: set<int>, L: seq<seq<int>>) {
    Tiled(m, top, S) && Coalesced(m, S) && Listed(m, table, S, L)
  }

  /** No word of a used block outside [b, e) changed. */
  ghost predicate UsedKept(m: Words, m': Words, S: set<int>, b: int, e: int)
    requires |m'| == |m| && forall a {:trigger a in S} :: a in S ==> 0 <= a < |m|
  {
    forall a {:trigger a in S} :: a in S && !IsFree(m[a]) && !(b <= a < e) && 0 <= Size(m[a]) <= |m| - a ==>
      m'[a..a + Size(m[a])] == m[a..a + Size(m[a])]
  }

  lemma Apart(m: Words, top: int, S: set<int>, a: int, c: int)
    requires Tiled(m, top, S) && a in S && c in S
    ensures Size(m[a]) >= MIN_BLOCK && a + Size(m[a]) <= top && a % ALIGN == 0
    ensures a == c || a + Size(m[a]) <= c || c + MIN_BLOCK <= c + Size(m[c]) <= a
  {
    assert Block(m, top, S, a) && Block(m, top, S, c);
  }

  /** Where the block at b is in its list. */
  lemma PlaceOf(m: Words, table: seq<int>, top: int, S: set<int>, L: seq<seq<int>>, b: int) returns (k: nat)
    requires Tiled(m, top, S) && Listed(m, table, S, L) && b in S && IsFree(m[b])
    ensures m[b] >= 0 && Log2(m[b]) < BINS
    ensures var l := L[Log2(m[b])]; k < |l| && l[k] == b && LinkAt(m, l, k)
    ensures var next, prev := m[b + 1], m[b + 2];
      && (next == NULL || (next in S && next != b && IsFree(m[next])))
      && (prev == NULL || (prev in S && prev != b && IsFree(m[prev])))
  {
    assert Findable(m, L, b);
    var i := Log2(m[b]);
    var l := L[i];
    k :| 0 <= k < |l| && l[k] == b;
    assert Chain(m, table[i], l);
    assert LinkAt(m, l, k);
    assert k + 1 < |l| ==> Filed(m, S, L[i][k + 1], i);
    assert k > 0 ==> Filed(m, S, L[i][k - 1], i);
  }

  lemma UnlinkedAt(m: Words, table: seq<int>, top: int, S: set<int>, L: seq<seq<int>>, b: int, a: int)
    requires Tiled(m, top, S) && Listed(m, table, S, L) && b in S && IsFree(m[b]) && a in S && a != b
    requires 0 < b && b + 2 < |m| && (m[b + 1] == NULL || m[b + 1] in S) && (m[b + 2] == NULL || m[b + 2] in S)
    requires m[b + 1] != b && m[b + 2] != b
    ensures Unlinkable(m, b) && 0 <= a && a + MIN_BLOCK <= a + Size(m[a]) <= |m|
    ensures var m' := Unlinked(m, b);
            && m'[a] == m[a] && m'[a + Size(m[a]) - 1] == m[a + Size(m[a]) - 1]
            && m'[a + 1] == (if a == m[b + 2] then m[b + 1] else m[a + 1])
            && m'[a + 2] == (if a == m[b + 1] then m[b + 2] else m[a + 2])
            && (a != m[b + 1] && a != m[b + 2] ==> m'[a..a + Size(m[a])] == m[a..a + Size(m[a])])
  {
    Apart(m, top, S, a, b);
    Apart(m, top, S, b, a);
    if m[b + 1] != NULL {
      Apart(m, top, S, a, m[b + 1]);
      Apart(m, top, S, m[b + 1], b);
    }
    if m[b + 2] != NULL {
      Apart(m, top, S, a, m[b + 2]);
      Apart(m, top, S, m[b + 2], b);
    }
  }

  lemma UnlinkedAtB(m: Words, top: int, S: set<int>, b: int)
    requires Tiled(m, top, S) && b in S && Unlinkable(m, b) && m[b + 1] != b && m[b + 2] != b
    requires (m[b + 1] == NULL || m[b + 1] in S) && (m[b + 2] == NULL || m[b + 2] in S)
    ensures b + Size(m[b]) <= top && WordOk(m[b])
    ensures Unlinked(m, b)[b] == UsedWord(Size(m[b])) == Unlinked(m, b)[b + Size(m[b]) - 1]
  {
    assert Block(m, top, S, b);
    if m[b + 1] != NULL {
      Apart(m, top, S, b, m[b + 1]);
    }
    if m[b + 2] != NULL {
      Apart(m, top, S, b, m[b + 2]);
    }
  }

  /** Taking a free block off its list leaves a heap in which it is used. */
  lemma UnlinkHeap(m: Words, table: seq<int>, top: int, S: set<int>, L: seq<seq<int>>, b: int)
    returns (table': seq<int>, L': seq<seq<int>>)
    requires Heap(m, table, top, S, L) && b in S && IsFree(m[b])
    ensures Unlinkable(m, b) && m[b] >= 0 && Log2(m[b]) < BINS
    ensures table' == if table[Log2(m[b])] == b then table[Log2(m[b]) := m[b + 1]] else table
    ensures var m' := Unlinked(m, b);
            && Heap(m', table', top, S, L') && m'[b] == UsedWord(Size(m[b]))
            && EndsKept(m, m', S, b, b + 1) && UsedKept(m, m', S, b, b + 1)
  {
    hide Unlinked, Log2, LinkAt, Chain, Filed, Findable, Without, Block, Follows;
    var k := PlaceOf(m, table, top, S, L, b);
    UnlinkableIn(m, top, S, b);
    var i := Log2(m[b]);
    table' := if table[i] == b then table[i := m[b + 1]] else table;
    L' := L[i := Without(L[i], k)];
    UnlinkLists(m, table, top, S, L, b, k, table', L');
    UnlinkTiled(m, table, top, S, L, b);
  }

  lemma UnlinkableIn(m: Words, top: int, S: set<int>, b: int)
    requires Tiled(m, top, S) && b in S && b + 2 < |m|
    requires (m[b + 1] == NULL || m[b + 1] in S) && (m[b + 2] == NULL || m[b + 2] in S)
    ensures Unlinkable(m, b)
  {
    Apart(m, top, S, b, b);
    if m[b + 1] != NULL {
      Apart(m, top, S, m[b + 1], b);
    }
    if m[b + 2] != NULL {
      Apart(m, top, S, m[b + 2], b);
    }
  }

  /** What stands next to the block at b in its list, if anything. */
  ghost predicate Listable(m: Words, S: set<int>, b: int) {
    && Unlinkable(m, b) && m[b + 1] != b && m[b + 2] != b
    && (m[b + 1] == NULL || (m[b + 1] in S && 0 <= m[b + 1] < |m| && IsFree(m[m[b + 1]])))
    && (m[b + 2] == NULL || (m[b + 2] in S && 0 <= m[b + 2] < |m| && IsFree(m[m[b + 2]])))
  }

  lemma UnlinkUsed(m: Words, table: seq<int>, top: int, S: set<int>, L: seq<seq<int>>, b: int)
    requires Heap(m, table, top, S, L) && b in S && Listable(m, S, b) && IsFree(m[b])
    ensures UsedKept(m, Unlinked(m, b), S, b, b + 1)
  {
    hide Unlinked, Listed, Follows, Block, Coalesced;
    forall a | a in S && !IsFree(m[a]) && !(b <= a < b + 1) && 0 <= Size(m[a]) <= |m| - a
      ensures Unlinked(m, b)[a..a + Size(m[a])] == m[a..a + Size(m[a])]
    {
      UnlinkedAt(m, table, top, S, L, b, a);
    }
  }

  lemma UnlinkEnds(m: Words, table: seq<int>, top: int, S: set<int>, L: seq<seq<int>>, b: int)
    requires Heap(m, table, top, S, L) && b in S && Listable(m, S, b) && IsFree(m[b])
    ensures EndsKept(m, Unlinked(m, b), S, b, b + 1)
  {
    hide Unlinked, Listed, Follows, Block, Coalesced;
    forall a | a in S && !(b <= a < b + 1)
      ensures Unlinked(m, b)[a] == m[a]
      ensures 0 < a + Size(m[a]) <= |m| ==> Unlinked(m, b)[a + Size(m[a]) - 1] == m[a + Size(m[a]) - 1]
    {
      UnlinkedAt(m, table, top, S, L, b, a);
    }
  }

  lemma UnlinkAlone(m: Words, m': Words, top: int, S: set<int>, b: int)
    requires Tiled(m, top, S) && Coalesced(m, S) && |m'| == |m| && b in S
    requires EndsKept(m, m', S, b, b + 1) && m'[b] == UsedWord(Size(m[b]))
    ensures Coalesced(m', S)
  {
    hide Block, Follows;
    forall a | a in S
      ensures Alone(m', S, a)
    {
      assert Alone(m, S, a);
    }
  }

  lemma UnlinkTiled(m: Words, table: seq<int>, top: int, S: set<int>, L: seq<seq<int>>, b: int)
    requires Heap(m, table, top, S, L) && b in S && Listable(m, S, b) && IsFree(m[b])
    ensures var m' := Unlinked(m, b);
            && Tiled(m', top, S) && Coalesced(m', S) && m'[b] == UsedWord(Size(m[b]))
            && EndsKept(m, m', S, b, b + 1) && UsedKept(m, m', S, b, b + 1)
  {
    hide Unlinked, Listed, Follows, EndsKept, UsedKept, Coalesced;
    UnlinkedAtB(m, top, S, b);
    UnlinkUsed(m, table, top, S, L, b);
    UnlinkEnds(m, table, top, S, L, b);
    assert Block(m, top, S, b);
    UnlinkCarves(m, Unlinked(m, b), top, S, b);
    UnlinkAlone(m, Unlinked(m, b), top, S, b);
  }

  lemma UnlinkCarves(m: Words, m': Words, top: int, S: set<int>, b: int)
    requires Tiled(m, top, S) && b in S && |m'| == |m| && 0 < Size(m[b]) <= |m| - b && EndsKept(m, m', S, b, b + 1)
    requires m'[b] == UsedWord(Size(m[b])) == m'[b + Size(m[b]) - 1] && WordOk(m[b])
    ensures Tiled(m', top, S)
  {
    hide Follows;
    var e := b + Size(m[b]);
    assert Block(m, top, S, b);
    forall a | a in S && b <= a < e
      ensures a == b
    {
      Apart(m, top, S, a, b);
    }
    assert S == (set a | a in S && !(b <= a < e)) + {b};
    CarveTiled(m, m', top, top, S, S, b, e);
  }

  lemma UnlinkLists(m: Words, table: seq<int>, top: int, S: set<int>, L: seq<seq<int>>, b: int, k: nat,
                    table': seq<int>, L': seq<seq<int>>)
    requires Tiled(m, top, S) && Listed(m, table, S, L) && b in S && IsFree(m[b]) && Unlinkable(m, b)
    requires m[b] >= 0 && Log2(m[b]) < BINS
    requires var i := Log2(m[b]); var l := L[i];
      && k < |l| && l[k] == b && LinkAt(m, l, k)
      && table' == (if table[i] == b then table[i := m[b + 1]] else table)
      && L' == L[i := Without(l, k)]
    requires m[b + 1] == NULL || m[b + 1] in S
    requires (m[b + 2] == NULL || m[b + 2] in S) && m[b + 1] != b && m[b + 2] != b
    ensures Listed(Unlinked(m, b), table', S, L')
  {
    hide Unlinked, Block, Follows, Chain, Filed, Log2, LinkAt;
    var m' := Unlinked(m, b);
    forall i | 0 <= i < BINS
      ensures Chain(m', table'[i], L'[i])
      ensures forall j {:trigger L'[i][j]} :: 0 <= j < |L'[i]| ==> Filed(m', S, L'[i][j], i)
    {
      UnlinkBin(m, table, top, S, L, b, k, i);
      if i != Log2(m[b]) {
        UnlinkElsewhere(m, table, S, L, b, k, i);
      }
    }
    UnlinkedAtB(m, top, S, b);
    forall a | a in S
      ensures Findable(m', L', a)
    {
      if a != b {
        UnlinkedAt(m, table, top, S, L, b, a);
        assert Findable(m, L, a);
      }
    }
  }

  lemma UnlinkBin(m: Words, table: seq<int>, top: int, S: set<int>, L: seq<seq<int>>, b: int, k: nat, i: nat)
    requires Tiled(m, top, S) && Listed(m, table, S, L) && b in S && IsFree(m[b]) && Unlinkable(m, b)
    requires m[b] >= 0 && Log2(m[b]) < BINS && i < BINS
    requires var l := L[Log2(m[b])]; k < |l| && l[k] == b && LinkAt(m, l, k)
    requires m[b + 1] == NULL || m[b + 1] in S
    requires (m[b + 2] == NULL || m[b + 2] in S) && m[b + 1] != b && m[b + 2] != b
    ensures var m' := Unlinked(m, b); var l' := if i == Log2(m[b]) then Without(L[i], k) else L[i];
            && Chain(m', if table[i] == b then m[b + 1] else table[i], l')
            && forall j {:trigger l'[j]} :: 0 <= j < |l'| ==> Filed(m', S, l'[j], i)
  {
    hide Unlinked, Tiled, Log2, Filed, Chain, LinkAt, Without;
    var m', l := Unlinked(m, b), L[i];
    assert Chain(m, table[i], l);
    UnlinkFiled(m, table, top, S, L, b, i);
    if i == Log2(m[b]) {
      UnlinkOwn(m, m', table[i], S, l, k, b, i);
    } else {
      UnlinkElsewhere(m, table, S, L, b, k, i);
      UnlinkOther(m, m', table[i], l, b);
    }
  }

  lemma UnlinkOwn(m: Words, m': Words, head: int, S: set<int>, l: seq<int>, k: nat, b: int, i: nat)
    requires Chain(m, head, l) && k < |l| && l[k] == b && LinkAt(m, l, k) && |m'| == |m|
    requires forall j {:trigger l[j]} :: 0 <= j < |l| && l[j] != b ==>
            && 0 < l[j] && l[j] + 2 < |m'| && Filed(m', S, l[j], i)
            && m'[l[j] + 1] == (if l[j] == m[b + 2] then m[b + 1] else m[l[j] + 1])
            && m'[l[j] + 2] == (if l[j] == m[b + 1] then m[b + 2] else m[l[j] + 2])
    ensures Chain(m', if head == b then m[b + 1] else head, Without(l, k))
    ensures var l' := Without(l, k); forall j {:trigger l'[j]} :: 0 <= j < |l'| ==> Filed(m', S, l'[j], i)
  {
    hide Filed;
    ChainUnlinked(m, m', head, l, k);
    var l' := Without(l, k);
    forall j {:trigger l'[j]} | 0 <= j < |l'|
      ensures Filed(m', S, l'[j], i)
    {
      var h := if j < k then j else j + 1;
      assert l'[j] == l[h];
    }
  }

  lemma UnlinkOther(m: Words, m': Words, head: int, l: seq<int>, b: int)
    requires Chain(m, head, l) && |m'| == |m| && 0 <= b && b + 2 < |m|
    requires b !in l && (m[b + 1] != NULL ==> m[b + 1] !in l) && (m[b + 2] != NULL ==> m[b + 2] !in l)
    requires forall j {:trigger l[j]} :: 0 <= j < |l| && l[j] != b ==>
            && 0 < l[j] && l[j] + 2 < |m'|
            && m'[l[j] + 1] == (if l[j] == m[b + 2] then m[b + 1] else m[l[j] + 1])
            && m'[l[j] + 2] == (if l[j] == m[b + 1] then m[b + 2] else m[l[j] + 2])
    ensures Chain(m', head, l)
  {
    ChainKept(m, m', head, l);
  }

  lemma UnlinkFiled(m: Words, table: seq<int>, top: int, S: set<int>, L: seq<seq<int>>, b: int, i: nat)
    requires Tiled(m, top, S) && Listed(m, table, S, L) && b in S && IsFree(m[b]) && Unlinkable(m, b) && i < BINS
    requires m[b + 1] == NULL || m[b + 1] in S
    requires (m[b + 2] == NULL || m[b + 2] in S) && m[b + 1] != b && m[b + 2] != b
    ensures var m', l := Unlinked(m, b), L[i]; forall j {:trigger l[j]} :: 0 <= j < |l| && l[j] != b ==>
            && 0 < l[j] && l[j] + 2 < |m'| && Filed(m', S, l[j], i)
            && m'[l[j] + 1] == (if l[j] == m[b + 2] then m[b + 1] else m[l[j] + 1])
            && m'[l[j] + 2] == (if l[j] == m[b + 1] then m[b + 2] else m[l[j] + 2])
  {
    hide Unlinked, Block, Follows, Log2, Chain;
    var m', l := Unlinked(m, b), L[i];
    forall j {:trigger l[j]} | 0 <= j < |l| && l[j] != b
      ensures 0 < l[j] && l[j] + 2 < |m'| && Filed(m', S, l[j], i)
      ensures m'[l[j] + 1] == if l[j] == m[b + 2] then m[b + 1] else m[l[j] + 1]
      ensures m'[l[j] + 2] == if l[j] == m[b + 1] then m[b + 2] else m[l[j] + 2]
    {
      assert Filed(m, S, L[i][j], i);
      UnlinkedAt(m, table, top, S, L, b, l[j]);
    }
  }

  /** The links of b lead to blocks of its own list. */
  lemma UnlinkElsewhere(m: Words, table: seq<int>, S: set<int>, L: seq<seq<int>>, b: int, k: nat, i: nat)
    requires Listed(m, table, S, L) && b in S && 0 <= b && b + 2 < |m| && m[b] >= 0 && Log2(m[b]) < BINS && i < BINS
    requires i != Log2(m[b])
    requires var l := L[Log2(m[b])]; k < |l| && l[k] == b && LinkAt(m, l, k)
    ensures b !in L[i] && table[i] != b
    ensures (m[b + 1] != NULL ==> m[b + 1] !in L[i]) && (m[b + 2] != NULL ==> m[b + 2] !in L[i])
  {
    var h := Log2(m[b]);
    var l := L[h];
    assert Chain(m, table[i], L[i]);
    forall j | 0 <= j < |L[i]|
      ensures L[i][j] != b && (k + 1 < |l| ==> L[i][j] != l[k + 1]) && (k > 0 ==> L[i][j] != l[k - 1])
    {
      assert Filed(m, S, L[i][j], i);
      assert k + 1 < |l| ==> Filed(m, S, L[h][k + 1], h);
      assert k > 0 ==> Filed(m, S, L[h][k - 1], h);
    }
  }

  // Used memory that is rearranged -----------------------------------------------------------

  /** Only words of [b, e) changed, where no block was and none is free. */
  ghost predicate Reworked(m: Words, m': Words, S: set<int>, S': set<int>, b: int, e: int) {
    && 0 < b <= e <= |m| == |m'| && m'[..b] == m[..b] && m'[e..] == m[e..]
    && (forall a {:trigger a in S} {:trigger a in S'} :: !(b <= a < e) ==> (a in S <==> a in S'))
    && (forall a {:trigger a in S} :: a in S && b <= a < e ==> !IsFree(m[a]))
    && (forall a {:trigger a in S'} :: a in S' && b <= a < e ==> !IsFree(m'[a]))
    && (forall a {:trigger a in S} :: a in S && 0 <= a < b ==> a + Size(m[a]) <= b)
  }

  lemma ReworkedAt(m: Words, m': Words, top: int, S: set<int>, S': set<int>, b: int, e: int, a: int)
    requires Reworked(m, m', S, S', b, e) && Tiled(m, top, S) && a in S && !(b <= a < e)
    ensures a in S' && 0 < a && a + MIN_BLOCK <= a + Size(m[a]) <= |m|
    ensures m'[a..a + Size(m[a])] == m[a..a + Size(m[a])]
    ensures m'[a] == m[a] && m'[a + 1] == m[a + 1] && m'[a + 2] == m[a + 2]
    ensures m'[a + Size(m[a]) - 1] == m[a + Size(m[a]) - 1]
  {
    assert Block(m, top, S, a);
    if a < b {
      forall x | a <= x < a + Size(m[a])
        ensures m'[x] == m[x]
      {
        assert m'[..b][x] == m[..b][x];
      }
    } else {
      forall x | a <= x < a + Size(m[a])
        ensures m'[x] == m[x]
      {
        assert m'[e..][x - e] == m[e..][x - e];
      }
    }
  }

  /** Rearranging used memory concerns no list, and no other used block. */
  lemma ReworkHeap(m: Words, m': Words, table: seq<int>, top: int, top': int, S: set<int>, S': set<int>,
      L: seq<seq<int>>, b: int, e: int)
    requires Heap(m, table, top, S, L) && Reworked(m, m', S, S', b, e) && Tiled(m', top', S')
    ensures Heap(m', table, top', S', L) && UsedKept(m, m', S, b, e) && EndsKept(m, m', S, b, e)
  {
    hide Block, Follows, Chain, Filed, LinkAt, Log2;
    forall a | a in S && !(b <= a < e)
      ensures a in S' && 0 <= a < a + Size(m[a]) <= |m| && m'[a] == m[a]
      ensures m'[a + Size(m[a]) - 1] == m[a + Size(m[a]) - 1] && m'[a..a + Size(m[a])] == m[a..a + Size(m[a])]
    {
      ReworkedAt(m, m', top, S, S', b, e, a);
    }
    forall a | a in S'
      ensures Alone(m', S', a) && Findable(m', L, a)
    {
      if a in S && !(b <= a < e) {
        assert Alone(m, S, a) && Findable(m, L, a);
      }
    }
    forall i | 0 <= i < BINS
      ensures Chain(m', table[i], L[i])
      ensures forall k {:trigger L[i][k]} :: 0 <= k < |L[i]| ==> Filed(m', S', L[i][k], i)
    {
      ReworkBin(m, m', table, top, S, S', L, b, e, i);
    }
  }

  lemma ReworkBin(m: Words, m': Words, table: seq<int>, top: int, S: set<int>, S': set<int>, L: seq<seq<int>>, b: int,
      e: int, i: nat)
    requires Tiled(m, top, S) && Listed(m, table, S, L) && Reworked(m, m', S, S', b, e) && i < BINS
    ensures Chain(m', table[i], L[i])
    ensures forall k {:trigger L[i][k]} :: 0 <= k < |L[i]| ==> Filed(m', S', L[i][k], i)
  {
    hide Block, Follows, Log2;
    var l := L[i];
    assert Chain(m, table[i], l);
    forall k | 0 <= k < |l|
      ensures 0 <= l[k] < |m| - 2 && Filed(m', S', l[k], i)
      ensures m'[l[k] + 1] == m[l[k] + 1] && m'[l[k] + 2] == m[l[k] + 2]
    {
      assert Filed(m, S, L[i][k], i);
      ReworkedAt(m, m', top, S, S', b, e, l[k]);
    }
    ChainKept(m, m', table[i], l);
  }

  // Putting a block on its list ----------------------------------------------------------------

  lemma PushedAt(m: Words, top: int, S: set<int>, b: int, n: int, head: int, a: int)
    requires Tiled(m, top, S) && a in S && !(b <= a < b + n) && 0 < b && 3 < n && b + n <= |m|
    requires head == NULL || (head in S && !(b <= head < b + n))
    requires forall c {:trigger c in S} :: c in S && c < b ==> c + Size(m[c]) <= b
    ensures head == NULL || 0 <= head < |m| - 2
    ensures 0 <= a && a + MIN_BLOCK <= a + Size(m[a]) <= |m|
    ensures var m' := Pushed(m, b, n, head);
            && m'[a] == m[a] && m'[a + Size(m[a]) - 1] == m[a + Size(m[a]) - 1]
            && m'[a + 1] == m[a + 1] && m'[a + 2] == (if a == head then b else m[a + 2])
            && (a != head ==> m'[a..a + Size(m[a])] == m[a..a + Size(m[a])])
  {
    Apart(m, top, S, a, a);
    if head != NULL {
      Apart(m, top, S, a, head);
      Apart(m, top, S, head, head);
    }
  }

  /** [b, e) holds used blocks only and has no free neighbours. */
  ghost predicate Pushable(m: Words, top: int, S: set<int>, b: int, e: int) {
    && Tiled(m, top, S) && b in S && (e in S || e == top) && b + MIN_BLOCK <= e && (e - b) % ALIGN == 0
    && (forall a {:trigger a in S} :: a in S && b <= a < e ==> !IsFree(m[a]))
    && (e in S ==> !IsFree(m[e]))
    && (forall a {:trigger a in S} :: a in S && a + Size(m[a]) == b ==> !IsFree(m[a]))
  }

  /** A stretch of used blocks becomes one free block, first in its list. */
  lemma PushHeap(m: Words, table: seq<int>, top: int, S: set<int>, L: seq<seq<int>>, b: int, e: int)
    returns (S': set<int>, L': seq<seq<int>>)
    requires Heap(m, table, top, S, L) && Pushable(m, top, S, b, e) && WORD * |m| < 0x1_0000_0000
    ensures Log2(FreeWord(e - b)) < BINS
    ensures var head := table[Log2(FreeWord(e - b))]; (head == NULL || 0 <= head < |m| - 2) && 0 < b < e <= |m|
    ensures var i := Log2(FreeWord(e - b)); var m' := Pushed(m, b, e - b, table[i]);
            && Heap(m', table[i := b], top, S', L')
            && S' == (set a | a in S && !(b <= a < e)) + {b}
            && UsedKept(m, m', S, b, e) && IsFree(m'[b])
            && forall a {:trigger a in S} :: a in S && !(b <= a < e) ==> m'[a] == m[a]
  {
    hide Block, Follows, Chain, LinkAt, Log2, Findable, Filed, Pushed, UsedKept, WordOk, Tiled, Coalesced;
    var n := e - b;
    StartsInside(m, top, S);
    Log2Fits(FreeWord(n));
    var i := Log2(FreeWord(n));
    S' := (set a | a in S && !(b <= a < e)) + {b};
    L' := L[i := [b] + L[i]];
    var head := table[i];
    HeadIn(m, table, S, L, i);
    PushTiled(m, top, S, S', b, e, head);
    StartsInside(Pushed(m, b, n, head), top, S');
    PushAlone(m, Pushed(m, b, n, head), top, S, S', b, e);
    PushLists(m, table, top, S, S', L, b, e, i, L');
  }

  lemma StartsInside(m: Words, top: int, S: set<int>)
    requires Tiled(m, top, S)
    ensures top <= |m| && forall c {:trigger c in S} :: c in S ==> 0 <= c < |m|
  {
  }

  lemma PushAlone(m: Words, m': Words, top: int, S: set<int>, S': set<int>, b: int, e: int)
    requires Pushable(m, top, S, b, e) && Coalesced(m, S) && S' == (set a | a in S && !(b <= a < e)) + {b}
    requires |m'| == |m| && Tiled(m', top, S') && EndsKept(m, m', S, b, e) && m'[b] == FreeWord(e - b)
    ensures Coalesced(m', S')
  {
    hide Block, Follows, WordOk;
    forall a | a in S'
      ensures Alone(m', S', a)
    {
      assert a in S ==> Alone(m, S, a);
      if a != b {
        Apart(m, top, S, a, b);
      }
    }
  }

  lemma HeadIn(m: Words, table: seq<int>, S: set<int>, L: seq<seq<int>>, i: nat)
    requires Listed(m, table, S, L) && i < BINS
    ensures table[i] == NULL || (table[i] in S && 0 <= table[i] < |m| && IsFree(m[table[i]]))
  {
    assert Chain(m, table[i], L[i]);
    assert L[i] != [] ==> Filed(m, S, L[i][0], i);
  }

  lemma PushTiled(m: Words, top: int, S: set<int>, S': set<int>, b: int, e: int, head: int)
    requires Pushable(m, top, S, b, e) && S' == (set a | a in S && !(b <= a < e)) + {b}
    requires head == NULL || (head in S && IsFree(m[head]))
    ensures (head == NULL || 0 <= head < |m| - 2) && 0 < b < e <= |m|
    ensures var m' := Pushed(m, b, e - b, head);
            && Tiled(m', top, S') && UsedKept(m, m', S, b, e) && EndsKept(m, m', S, b, e)
            && m'[b] == FreeWord(e - b) == m'[e - 1]
  {
    hide Follows, Log2, Pushed, Block, UsedKept, EndsKept, WordOk;
    PushFrame(m, top, S, b, e, head);
    var m' := Pushed(m, b, e - b, head);
    assert Carved(m, m', top, top, S, S', b, e);
    CarveTiled(m, m', top, top, S, S', b, e);
  }

  lemma PushUsed(m: Words, top: int, S: set<int>, b: int, e: int, head: int)
    requires Pushable(m, top, S, b, e) && (head == NULL || (head in S && IsFree(m[head])))
    requires (head == NULL || 0 <= head < |m| - 2) && BASE <= b && b + MIN_BLOCK <= e <= |m|
    ensures UsedKept(m, Pushed(m, b, e - b, head), S, b, e)
  {
    hide Follows, Block, Pushed, EndsKept;
    PushHead(m, top, S, b, e, head);
    var m' := Pushed(m, b, e - b, head);
    forall a | a in S && !IsFree(m[a]) && !(b <= a < e) && 0 <= Size(m[a]) <= |m| - a
      ensures m'[a..a + Size(m[a])] == m[a..a + Size(m[a])]
    {
      PushedAt(m, top, S, b, e - b, head, a);
    }
  }

  lemma PushEnds(m: Words, top: int, S: set<int>, b: int, e: int, head: int)
    requires Pushable(m, top, S, b, e) && (head == NULL || (head in S && IsFree(m[head])))
    requires (head == NULL || 0 <= head < |m| - 2) && BASE <= b && b + MIN_BLOCK <= e <= |m|
    ensures EndsKept(m, Pushed(m, b, e - b, head), S, b, e)
  {
    hide Follows, Block, Pushed, UsedKept;
    PushHead(m, top, S, b, e, head);
    var m' := Pushed(m, b, e - b, head);
    forall a | a in S && !(b <= a < e)
      ensures m'[a] == m[a] && (0 < a + Size(m[a]) <= |m| ==> m'[a + Size(m[a]) - 1] == m[a + Size(m[a]) - 1])
    {
      PushedAt(m, top, S, b, e - b, head, a);
    }
  }

  lemma PushFrame(m: Words, top: int, S: set<int>, b: int, e: int, head: int)
    requires Pushable(m, top, S, b, e) && (head == NULL || (head in S && IsFree(m[head])))
    ensures (head == NULL || 0 <= head < |m| - 2) && BASE <= b < e <= |m|
    ensures var m' := Pushed(m, b, e - b, head);
            && UsedKept(m, m', S, b, e) && EndsKept(m, m', S, b, e)
            && m'[b] == FreeWord(e - b) == m'[e - 1] && WordOk(m'[b]) && e == b + Size(m'[b])
  {
    hide Follows, Block, Pushed, UsedKept, EndsKept;
    Apart(m, top, S, b, b);
    PushHead(m, top, S, b, e, head);
    PushedEnds(m, top, S, b, e, head);
    PushUsed(m, top, S, b, e, head);
    PushEnds(m, top, S, b, e, head);
  }

  lemma PushHead(m: Words, top: int, S: set<int>, b: int, e: int, head: int)
    requires Pushable(m, top, S, b, e) && (head == NULL || (head in S && IsFree(m[head])))
    ensures head != NULL ==> !(b <= head < e) && 0 <= head < |m| - 2
    ensures forall c {:trigger c in S} :: c in S && c < b ==> c + Size(m[c]) <= b
  {
    if head != NULL {
      Apart(m, top, S, head, head);
    }
  }

  lemma PushedEnds(m: Words, top: int, S: set<int>, b: int, e: int, head: int)
    requires Tiled(m, top, S) && b in S && (e in S || e == top) && b + MIN_BLOCK <= e
    requires head == NULL || (head in S && !(b <= head < e) && 0 <= head < |m| - 2)
    ensures BASE <= b < e <= |m| && b % ALIGN == 0
    ensures var m' := Pushed(m, b, e - b, head);
            m'[b] == FreeWord(e - b) == m'[e - 1] && m'[b + 1] == head && m'[b + 2] == NULL
  {
    Apart(m, top, S, b, b);
    if head != NULL {
      Apart(m, top, S, head, b);
      if e in S {
        Apart(m, top, S, head, e);
      }
    }
  }

  lemma PushLists(m: Words, table: seq<int>, top: int, S: set<int>, S': set<int>, L: seq<seq<int>>, b: int, e: int,
      i: nat, L': seq<seq<int>>)
    requires Listed(m, table, S, L) && Pushable(m, top, S, b, e) && i == Log2(FreeWord(e - b)) < BINS
    requires S' == (set a | a in S && !(b <= a < e)) + {b} && L' == L[i := [b] + L[i]]
    requires (table[i] == NULL || 0 <= table[i] < |m| - 2) && 0 < b < e <= |m|
    ensures Listed(Pushed(m, b, e - b, table[i]), table[i := b], S', L')
  {
    hide Block, Follows, Chain, LinkAt, Log2, Filed, Pushed;
    var head := table[i];
    HeadIn(m, table, S, L, i);
    var m' := Pushed(m, b, e - b, head);
    PushedEnds(m, top, S, b, e, head);
    forall j | 0 <= j < BINS
      ensures Chain(m', table[i := b][j], L'[j])
      ensures forall k {:trigger L'[j][k]} :: 0 <= k < |L'[j]| ==> Filed(m', S', L'[j][k], j)
    {
      PushBin(m, table, top, S, S', L, b, e, i, j);
    }
    forall a | a in S'
      ensures Findable(m', L', a)
    {
      if a != b {
        PushedAt(m, top, S, b, e - b, head, a);
        assert Findable(m, L, a);
      }
    }
  }

  lemma PushBin(m: Words, table: seq<int>, top: int, S: set<int>, S': set<int>, L: seq<seq<int>>, b: int, e: int,
      i: nat, j: nat)
    requires Listed(m, table, S, L) && Pushable(m, top, S, b, e) && i == Log2(FreeWord(e - b)) < BINS && j < BINS
    requires S' == (set a | a in S && !(b <= a < e)) + {b}
    requires (table[i] == NULL || 0 <= table[i] < |m| - 2) && 0 < b < e <= |m|
    ensures var m' := Pushed(m, b, e - b, table[i]); var l' := if j == i then [b] + L[j] else L[j];
            && Chain(m', if j == i then b else table[j], l')
            && forall k {:trigger l'[k]} :: 0 <= k < |l'| ==> Filed(m', S', l'[k], j)
  {
    hide Tiled, Log2, Pushed, Chain, LinkAt, Filed;
    var m', l := Pushed(m, b, e - b, table[i]), L[j];
    assert Chain(m, table[j], l);
    PushFiled(m, table, top, S, S', L, b, e, i, j);
    PushOther(m, m', table[i], table[j], l, b, j == i);
    assert j == i ==> ([b] + l)[0] == b && forall k :: 1 <= k < |[b] + l| ==> ([b] + l)[k] == l[k - 1];
  }

  lemma PushFiled(m: Words, table: seq<int>, top: int, S: set<int>, S': set<int>, L: seq<seq<int>>, b: int, e: int,
      i: nat, j: nat)
    requires Listed(m, table, S, L) && Pushable(m, top, S, b, e) && i == Log2(FreeWord(e - b)) < BINS && j < BINS
    requires S' == (set a | a in S && !(b <= a < e)) + {b}
    requires (table[i] == NULL || 0 <= table[i] < |m| - 2) && 0 < b < e <= |m|
    ensures var m', l := Pushed(m, b, e - b, table[i]), L[j];
            && 0 <= b < |m| - 2 && m'[b + 1] == table[i] && m'[b + 2] == NULL && Filed(m', S', b, i)
            && (table[i] != NULL && j != i ==> table[i] !in l)
            && forall k {:trigger l[k]} :: 0 <= k < |l| ==>
              && 0 < l[k] < |m| - 2 && l[k] != b && Filed(m', S', l[k], j)
              && m'[l[k] + 1] == m[l[k] + 1] && m'[l[k] + 2] == (if l[k] == table[i] then b else m[l[k] + 2])
  {
    hide Block, Follows, Log2, Pushed, LinkAt;
    var m', l := Pushed(m, b, e - b, table[i]), L[j];
    assert Chain(m, table[i], L[i]);
    HeadIn(m, table, S, L, i);
    PushedEnds(m, top, S, b, e, table[i]);
    assert L[i] != [] ==> Filed(m, S, L[i][0], i);
    forall k {:trigger l[k]} | 0 <= k < |l|
      ensures 0 < l[k] < |m| - 2 && l[k] != b && Filed(m', S', l[k], j)
      ensures table[i] != NULL && j != i ==> table[i] != l[k]
      ensures m'[l[k] + 1] == m[l[k] + 1] && m'[l[k] + 2] == if l[k] == table[i] then b else m[l[k] + 2]
    {
      assert Filed(m, S, L[j][k], j);
      PushedAt(m, top, S, b, e - b, table[i], l[k]);
    }
  }

  lemma PushOther(m: Words, m': Words, head: int, head': int, l: seq<int>, b: int, own: bool)
    requires Chain(m, head', l) && |m'| == |m| && 0 <= b < |m| - 2 && m'[b + 1] == head && m'[b + 2] == NULL
    requires if own then head == head' else head == NULL || head !in l
    requires forall k {:trigger l[k]} :: 0 <= k < |l| ==>
      && 0 < l[k] < |m| - 2 && l[k] != b
      && m'[l[k] + 1] == m[l[k] + 1] && m'[l[k] + 2] == (if l[k] == head then b else m[l[k] + 2])
    ensures if own then Chain(m', b, [b] + l) else Chain(m', head', l)
  {
    if own {
      ChainPushed(m, m', head, l, b);
    } else {
      ChainKept(m, m', head', l);
    }
  }

  lemma UserKept(m: Words, m': Words, a: int)
    requires 0 <= a < |m| && a + MIN_BLOCK <= a + Size(m[a]) <= |m| == |m'|
    requires m'[a..a + Size(m[a])] == m[a..a + Size(m[a])]
    ensures User(m', a) == User(m, a)
  {
    var n := Size(m[a]);
    forall x | a <= x < a + n
      ensures m'[x] == m[x]
    {
      assert m'[a..a + n][x - a] == m[a..a + n][x - a];
    }
  }

  lemma KeptOutside(m: Words, m': Words, top: int, S: set<int>, S': set<int>, b: int, e: int)
    requires Tiled(m, top, S) && |m'| == |m| && UsedKept(m, m', S, b, e)
    requires forall a {:trigger a in S} :: a in S && !(b <= a < e) ==> a in S' && m'[a] == m[a]
    requires forall a {:trigger a in S'} :: a in S' && !(b <= a < e) ==> a in S
    ensures SameOutside(m, S, m', S', b, e)
  {
    forall a | !(b <= a < e)
      ensures IsLive(m, S, a) <==> IsLive(m', S', a)
      ensures IsLive(m, S, a) ==> User(m', a) == User(m, a) && m'[a] == m[a]
    {
      if a in S {
        Apart(m, top, S, a, a);
        if !IsFree(m[a]) {
          UserKept(m, m', a);
        }
      }
    }
  }

  lemma HeapTiles(m: Words, table: seq<int>, top: int, S: set<int>, L: seq<seq<int>>)
    requires Heap(m, table, top, S, L)
    ensures Tiled(m, top, S) && BASE <= top <= |m| && top % ALIGN == 0
    ensures forall a {:trigger a in S} :: a in S ==> BASE <= a && a + MIN_BLOCK <= a + Size(m[a]) <= top && WordOk(m[a])
  {
    forall a | a in S
      ensures a + MIN_BLOCK <= a + Size(m[a]) <= top && WordOk(m[a])
    {
      assert Block(m, top, S, a);
    }
  }

  lemma UnlinkOutside(m: Words, m': Words, top: int, S: set<int>, b: int)
    requires Tiled(m, top, S) && |m'| == |m| && UsedKept(m, m', S, b, b + 1) && EndsKept(m, m', S, b, b + 1)
    ensures SameOutside(m, S, m', S, b, b + 1)
    ensures forall a {:trigger a in S} :: a in S && a != b ==> m'[a] == m[a]
  {
    hide UsedKept;
    KeptOutside(m, m', top, S, S, b, b + 1);
  }
}
