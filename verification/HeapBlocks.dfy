/** The heap of the allocator as a row of words tiled by blocks. Addresses are
    word indices; the first and the last word of a block both hold its size in
    bytes with a tag in the lowest bit, set if the block is in use. */
module HeapBlocks {
  type Words = seq<int>

  const NULL := 0

  /** Bytes in a word. */
  const WORD := 4

  /** Words from the start of a block to the data of its user. */
  const ALIGN := 2

  /** Where the heap starts: the end of the data of the program. */
  const BASE := 2

  /** The smallest block has room for two size words and two links. */
  const MIN_BLOCK := 4

  function SizeSize(x: int): int {
    x - x % 2
  }

  predicate IsFree(x: int) {
    x % 2 == 0
  }

  /** The size in words that a size word tells. */
  function Size(x: int): int {
    SizeSize(x) / WORD
  }

  function FreeWord(n: int): int {
    WORD * n
  }

  function UsedWord(n: int): int {
    WORD * n + 1
  }

  predicate WordOk(x: int) {
    Size(x) >= MIN_BLOCK && Size(x) % ALIGN == 0 && (x == FreeWord(Size(x)) || x == UsedWord(Size(x)))
  }

  /** a starts a block whose tail agrees with its head, and which another block
      or the top of the heap follows. */
  ghost predicate Block(m: Words, top: int, S: set<int>, a: int) {
    && BASE <= a < |m| && a % ALIGN == 0 && WordOk(m[a])
    && var e := a + Size(m[a]);
      && e <= top <= |m| && m[e - 1] == m[a]
      && (e == top || e in S)
  }

  /** The word before a is the tail of the block that ends at a. */
  ghost predicate Follows(m: Words, S: set<int>, a: int) {
    a == BASE ||
    (&& BASE < a <= |m| && WordOk(m[a - 1])
     && var p := a - Size(m[a - 1]);
       p in S && BASE <= p && m[p] == m[a - 1])
  }

  /** S holds the starts of blocks that tile the heap up to top. */
  ghost predicate Tiled(m: Words, top: int, S: set<int>) {
    && BASE <= top <= |m| && top % ALIGN == 0
    && (forall a {:trigger a in S} :: a in S ==> BASE <= a < top)
    && (forall a {:trigger Block(m, top, S, a)} :: a in S ==> Block(m, top, S, a))
    && (forall a {:trigger Follows(m, S, a)} :: a in S || a == top ==> Follows(m, S, a))
    && (forall a, c {:trigger a in S, c in S} :: a in S && c in S && a < c ==> a + Size(m[a]) <= c)
    && (top > BASE ==> BASE in S)
  }

  /** The head and tail words of the blocks outside [b, e) are the same. */
  ghost predicate EndsKept(m: Words, m': Words, S: set<int>, b: int, e: int)
    requires |m'| == |m| && forall a {:trigger a in S} :: a in S ==> 0 <= a < |m|
  {
    forall a {:trigger a in S} :: a in S && !(b <= a < e) ==>
      m'[a] == m[a] && (0 < a + Size(m[a]) <= |m| ==> m'[a + Size(m[a]) - 1] == m[a + Size(m[a]) - 1])
  }

  /** The change that makes one block of [b, e), where there were blocks or new
      memory before. */
  ghost predicate Carved(m: Words, m': Words, top: int, top': int, S: set<int>, S': set<int>, b: int, e: int) {
    && Tiled(m, top, S) && |m'| == |m|
    && (b in S || (b == top && e == top'))
    && ((e in S && top' == top) || (e == top' && top <= top' <= |m|))
    && b < e && WordOk(m'[b]) && e == b + Size(m'[b]) && m'[e - 1] == m'[b]
    && S' == (set a | a in S && !(b <= a < e)) + {b}
    && EndsKept(m, m', S, b, e)
  }

  lemma CarveTiled(m: Words, m': Words, top: int, top': int, S: set<int>, S': set<int>, b: int, e: int)
    requires Carved(m, m', top, top', S, S', b, e)
    ensures Tiled(m', top', S')
  {
    CarveApart(m, m', top, top', S, S', b, e);
    forall a | a in S'
      ensures Block(m', top', S', a)
    {
      CarveBlock(m, m', top, top', S, S', b, e, a);
    }
    forall a | a in S' || a == top'
      ensures Follows(m', S', a)
    {
      CarveFollows(m, m', top, top', S, S', b, e, a);
    }
  }

  lemma CarveApart(m: Words, m': Words, top: int, top': int, S: set<int>, S': set<int>, b: int, e: int)
    requires Carved(m, m', top, top', S, S', b, e)
    ensures BASE <= top' <= |m'| && top' % ALIGN == 0
    ensures forall a {:trigger a in S'} :: a in S' ==> BASE <= a < top'
    ensures forall a, c {:trigger a in S', c in S'} :: a in S' && c in S' && a < c ==> a + Size(m'[a]) <= c
    ensures BASE in S'
  {
    if b in S {
      assert Block(m, top, S, b);
    }
    assert Block(m, top, S, e) || e == top';
    forall a, c | a in S' && c in S' && a < c
      ensures a + Size(m'[a]) <= c
    {
      if a != b {
        assert Block(m, top, S, a);
      }
    }
  }

  lemma CarveBlock(m: Words, m': Words, top: int, top': int, S: set<int>, S': set<int>, b: int, e: int, a: int)
    requires Carved(m, m', top, top', S, S', b, e) && a in S'
    ensures Block(m', top', S', a)
  {
    assert Block(m, top, S, a) || a == top;
  }

  lemma CarveFollows(m: Words, m': Words, top: int, top': int, S: set<int>, S': set<int>, b: int, e: int, a: int)
    requires Carved(m, m', top, top', S, S', b, e) && (a in S' || a == top')
    ensures Follows(m', S', a)
  {
    if a != e && a != BASE {
      assert Follows(m, S, a);
      var p := a - Size(m[a - 1]);
      assert Block(m, top, S, p);
    }
  }

  /** A block is cut in two at f. */
  ghost predicate Cut(m: Words, m': Words, top: int, S: set<int>, b: int, f: int) {
    && Tiled(m, top, S) && |m'| == |m| && b in S
    && var e := b + Size(m[b]);
      && b < f < e <= |m| && WordOk(m'[b]) && f == b + Size(m'[b]) && m'[f - 1] == m'[b]
      && WordOk(m'[f]) && e == f + Size(m'[f]) && m'[e - 1] == m'[f]
      && EndsKept(m, m', S, b, e)
  }

  lemma SplitTiled(m: Words, m': Words, top: int, S: set<int>, b: int, f: int)
    requires Cut(m, m', top, S, b, f)
    ensures Tiled(m', top, S + {f})
  {
    var S' := S + {f};
    SplitApart(m, m', top, S, S', b, f);
    forall a | a in S'
      ensures Block(m', top, S', a)
    {
      SplitBlock(m, m', top, S, b, f, a);
    }
    forall a | a in S' || a == top
      ensures Follows(m', S', a)
    {
      SplitFollows(m, m', top, S, b, f, a);
    }
  }

  lemma SplitApart(m: Words, m': Words, top: int, S: set<int>, S': set<int>, b: int, f: int)
    requires Cut(m, m', top, S, b, f) && S' == S + {f}
    ensures BASE <= top <= |m'| && top % ALIGN == 0 && BASE in S'
    ensures forall a {:trigger a in S'} :: a in S' ==> BASE <= a < top
    ensures forall a, c {:trigger a in S', c in S'} :: a in S' && c in S' && a < c ==> a + Size(m'[a]) <= c
  {
    assert Block(m, top, S, b);
    forall a, c | a in S' && c in S' && a < c
      ensures a + Size(m'[a]) <= c
    {
      if a != b && a != f {
        assert Block(m, top, S, a);
      }
    }
  }

  lemma SplitBlock(m: Words, m': Words, top: int, S: set<int>, b: int, f: int, a: int)
    requires Cut(m, m', top, S, b, f) && a in S + {f}
    ensures Block(m', top, S + {f}, a)
  {
    assert Block(m, top, S, b);
    assert a == f || Block(m, top, S, a);
  }

  lemma SplitFollows(m: Words, m': Words, top: int, S: set<int>, b: int, f: int, a: int)
    requires Cut(m, m', top, S, b, f) && (a in S + {f} || a == top)
    ensures Follows(m', S + {f}, a)
  {
    assert Block(m, top, S, b);
    if a != b + Size(m[b]) && a != f && a != BASE {
      assert Follows(m, S, a);
      var p := a - Size(m[a - 1]);
      assert Block(m, top, S, p);
    }
  }

  // Used and free blocks -----------------------------------------------------------------

  ghost predicate Alone(m: Words, S: set<int>, a: int)
    requires forall c {:trigger c in S} :: c in S ==> 0 <= c < |m|
  {
    a in S && IsFree(m[a]) && a + Size(m[a]) in S ==> !IsFree(m[a + Size(m[a])])
  }

  /** No two free blocks are adjacent. */
  ghost predicate Coalesced(m: Words, S: set<int>)
    requires forall c {:trigger c in S} :: c in S ==> 0 <= c < |m|
  {
    forall a {:trigger Alone(m, S, a)} :: Alone(m, S, a)
  }

  /** What the user of the block at a can write to. */
  function User(m: Words, a: int): seq<int> {
    if 0 <= a < |m| && a + ALIGN <= a + Size(m[a]) - 1 <= |m| then m[a + ALIGN..a + Size(m[a]) - 1] else []
  }

  ghost predicate IsLive(m: Words, S: set<int>, a: int) {
    a in S && 0 <= a < |m| && !IsFree(m[a])
  }

  /** The used blocks and what they hold. */
  ghost function Live(m: Words, S: set<int>): map<int, seq<int>> {
    map a | a in S && IsLive(m, S, a) :: User(m, a)
  }

  /** The same blocks outside [b, e) are used, and hold the same. */
  ghost predicate SameOutside(m: Words, S: set<int>, m': Words, S': set<int>, b: int, e: int) {
    forall a {:trigger IsLive(m, S, a)} {:trigger IsLive(m', S', a)} :: !(b <= a < e) ==>
      (IsLive(m, S, a) <==> IsLive(m', S', a)) && (IsLive(m, S, a) ==> User(m', a) == User(m, a) && m'[a] == m[a])
  }

  lemma SameOutsideTrans(m: Words, S: set<int>, m': Words, S': set<int>, m'': Words, S'': set<int>, b: int, e: int,
      b': int, e': int)
    requires SameOutside(m, S, m', S', b, e) && SameOutside(m', S', m'', S'', b', e') && b' <= b && e <= e'
    ensures SameOutside(m, S, m'', S'', b', e')
  {
  }

  /** If everything else is the same, the used blocks differ in one place only. */
  lemma LiveOne(m: Words, S: set<int>, m': Words, S': set<int>, b: int, e: int, x: int)
    requires SameOutside(m, S, m', S', b, e) && IsLive(m', S', x)
    requires forall a {:trigger IsLive(m, S, a)} :: b <= a < e && IsLive(m, S, a) ==> a == x
    requires forall a {:trigger IsLive(m', S', a)} :: b <= a < e && IsLive(m', S', a) ==> a == x
    ensures Live(m', S') == Live(m, S)[x := User(m', x)]
  {
    hide User, IsLive;
    assert forall a :: a in Live(m', S') <==> IsLive(m', S', a) by { LiveHas(m', S'); }
    assert forall a :: a in Live(m, S) <==> IsLive(m, S, a) by { LiveHas(m, S); }
  }

  lemma LiveHas(m: Words, S: set<int>)
    ensures forall a {:trigger IsLive(m, S, a)} :: IsLive(m, S, a) <==> a in Live(m, S)
  {
  }

  /** If the used blocks of [b, e) are gone, or were never there, the others are left. */
  lemma LiveNone(m: Words, S: set<int>, m': Words, S': set<int>, b: int, e: int, x: int)
    requires SameOutside(m, S, m', S', b, e) && b <= x < e
    requires forall a {:trigger IsLive(m, S, a)} :: b <= a < e && IsLive(m, S, a) ==> a == x
    requires forall a {:trigger IsLive(m', S', a)} :: b <= a < e ==> !IsLive(m', S', a)
    ensures Live(m', S') == Live(m, S) - {x}
  {
    hide User, IsLive;
    assert forall a :: a in Live(m', S') <==> IsLive(m', S', a) by { LiveHas(m', S'); }
    assert forall a :: a in Live(m, S) <==> IsLive(m, S, a) by { LiveHas(m, S); }
  }

  /** A used block was cut in two: what its front holds is all that differs once
      the back is gone. */
  lemma LiveSplit(m: Words, S: set<int>, m': Words, S': set<int>, b: int, e: int, f: int)
    requires SameOutside(m, S, m', S', b, e) && b < f < e && IsLive(m', S', b)
    requires forall a {:trigger IsLive(m, S, a)} :: b <= a < e && IsLive(m, S, a) ==> a == b
    requires forall a {:trigger IsLive(m', S', a)} :: b <= a < e && IsLive(m', S', a) ==> a == b || a == f
    ensures Live(m', S') - {f} == Live(m, S)[b := User(m', b)]
  {
    hide User, IsLive;
    assert forall a :: a in Live(m', S') <==> IsLive(m', S', a) by { LiveHas(m', S'); }
    assert forall a :: a in Live(m, S) <==> IsLive(m, S, a) by { LiveHas(m, S); }
  }

  /** Two used blocks were joined. */
  lemma LiveJoin(m: Words, S: set<int>, m': Words, S': set<int>, b: int, e: int, c: int)
    requires SameOutside(m, S, m', S', b, e) && b < c < e && IsLive(m', S', b)
    requires forall a {:trigger IsLive(m, S, a)} :: b <= a < e && IsLive(m, S, a) ==> a == b || a == c
    requires forall a {:trigger IsLive(m', S', a)} :: b <= a < e && IsLive(m', S', a) ==> a == b
    ensures Live(m', S') == (Live(m, S) - {c})[b := User(m', b)]
  {
    hide User, IsLive;
    assert forall a :: a in Live(m', S') <==> IsLive(m', S', a) by { LiveHas(m', S'); }
    assert forall a :: a in Live(m, S) <==> IsLive(m, S, a) by { LiveHas(m, S); }
  }
}
