/** Substring search with one shift table: compare from the end of the pattern,
    and shift by the last occurrence of the text character that differed. */
module Search {
  /** A character of a seven-bit text; text and pattern hold no terminator. */
  type Char = c: int | 1 <= c < 128 witness 1

  ghost predicate OccursAt(pat: seq<Char>, s: seq<Char>, at: int) {
    0 <= at && at + |pat| <= |s| && forall k {:trigger pat[k]} :: 0 <= k < |pat| ==> s[at + k] == pat[k]
  }

  /** The distance of the last x in the pattern from its end, or the whole
      length if there is none. */
  ghost predicate IsShift(pat: seq<Char>, x: int, shift: int) {
    && 0 <= shift <= |pat|
    && (shift < |pat| ==> pat[|pat| - 1 - shift] == x)
    && forall k {:trigger pat[k]} :: 0 <= k < |pat| && |pat| - 1 - shift < k ==> pat[k] != x
  }

  /** The pattern agrees with the text on its last m characters, the text being
      aligned so that the pattern ends at last, and differs just before. */
  ghost predicate DiffersAfter(pat: seq<Char>, s: seq<Char>, last: int, m: int) {
    && 0 <= m < |pat| && |pat| - 1 <= last < |s|
    && (forall k {:trigger pat[k]} :: |pat| - m <= k < |pat| ==> s[last - (|pat| - 1) + k] == pat[k])
    && s[last - m] != pat[|pat| - 1 - m]
  }

  /** Where the next comparison starts. */
  function NextEnd(last: int, m: int, shift: int): int {
    if last - m + shift <= last then last + 2 else last - m + shift
  }

  /** When the shift does not move forward, the pattern cannot end one place
      further on: its last m + 1 characters would have to be all the same, and
      the one that differed is among them. */
  lemma StepOfTwo(pat: seq<Char>, s: seq<Char>, last: int, m: int, shift: int)
    requires DiffersAfter(pat, s, last, m) && IsShift(pat, s[last - m], shift) && shift <= m
    ensures !OccursAt(pat, s, last + 1 - (|pat| - 1))
  {
    var l := |pat|;
    if OccursAt(pat, s, last + 1 - (l - 1)) {
      assert pat[l - 1 - shift] == s[last - m];
      SuffixConstant(pat, s, last, m, m);
      SuffixConstant(pat, s, last, m, shift);
    }
  }

  lemma {:induction false} SuffixConstant(pat: seq<Char>, s: seq<Char>, last: int, m: int, d: int)
    requires DiffersAfter(pat, s, last, m) && OccursAt(pat, s, last + 1 - (|pat| - 1)) && 0 <= d <= m
    ensures pat[|pat| - 1 - d] == pat[|pat| - 1]
    decreases d
  {
    if d > 0 {
      SuffixConstant(pat, s, last, m, d - 1);
      var k := |pat| - 1 - d;
      assert s[last + 1 - (|pat| - 1) + k] == pat[k];
      assert s[last - (|pat| - 1) + (k + 1)] == pat[k + 1];
    }
  }

  /** No occurrence ends between last and the next comparison. */
  lemma NoneSkipped(pat: seq<Char>, s: seq<Char>, last: int, m: int, shift: int, e: int)
    requires DiffersAfter(pat, s, last, m) && IsShift(pat, s[last - m], shift)
    requires last <= e < NextEnd(last, m, shift)
    ensures !OccursAt(pat, s, e - (|pat| - 1))
  {
    var l := |pat|;
    if e > last && shift <= m {
      StepOfTwo(pat, s, last, m, shift);
    } else {
      var k := l - 1 - (e - (last - m));
      assert pat[k] != s[e - (l - 1) + k];
    }
  }

  class BoyerMoore {
    var pat: seq<Char>
    var p: int
    const delta1: array<int>

    /** The table holds the shift of every character. */
    ghost predicate Valid()
      reads this, delta1
    {
      && delta1.Length == 256 && p == |pat| - 1
      && forall x {:trigger delta1[x]} :: 1 <= x < 128 ==> IsShift(pat, x, delta1[x])
    }

    constructor ()
      ensures fresh(delta1) && delta1.Length == 256
    {
      pat, p := [], -1;
      delta1 := new int[256](_ => 0);
    }

    /** bmInit. */
    method Init(pat: seq<Char>) returns (r: int)
      requires delta1.Length == 256
      modifies this, delta1
      ensures Valid() && this.pat == pat && r == |pat| - 1
    {
      var l := |pat|;
      this.pat := pat;
      for i := 0 to 256
        invariant this.pat == pat && forall x :: 0 <= x < i ==> delta1[x] == l
      {
        delta1[i] := l;
      }
      var i := l;
      var k := 0;
      while k < |pat|
        invariant 0 <= k <= |pat| && l == |pat| - k && this.pat == pat
        invariant forall x {:trigger delta1[x]} :: 1 <= x < 128 ==> Shifts(pat[..k], |pat|, x, delta1[x])
      {
        l := l - 1;
        assert pat[..k + 1] == pat[..k] + [pat[k]];
        delta1[pat[k]] := l;
        k := k + 1;
      }
      assert pat[..k] == pat;
      p := i - 1;
      r := p;
    }

    /** bmSrch: the place of the first occurrence, or -1. The empty pattern is
        not searched for. */
    method Find(s: seq<Char>) returns (r: int)
      requires Valid() && pat != []
      ensures r >= 0 ==> OccursAt(pat, s, r) && forall k :: 0 <= k < r ==> !OccursAt(pat, s, k)
      ensures r < 0 ==> r == -1 && forall k :: !OccursAt(pat, s, k)
    {
      var slen := |s| - 1;
      var i := p;
      while i <= slen
        invariant p <= i
        invariant forall k :: OccursAt(pat, s, k) ==> k + p >= i
        decreases slen - i
      {
        var j := p;
        var last := i;
        while s[i] == pat[j]
          invariant 0 <= j <= p && i == last - (p - j)
          invariant forall k {:trigger pat[k]} :: j < k <= p ==> s[last - p + k] == pat[k]
          decreases j
        {
          if j > 0 {
            j := j - 1;
            i := i - 1;
          } else {
            assert OccursAt(pat, s, i);
            return i;
          }
        }
        ghost var m, shift := p - j, delta1[s[i]];
        forall k | OccursAt(pat, s, k)
          ensures k + p >= NextEnd(last, m, shift)
        {
          if k + p < NextEnd(last, m, shift) {
            NoneSkipped(pat, s, last, m, shift, k + p);
          }
        }
        i := i + delta1[s[i]];
        if i <= last {
          i := last + 2;
        }
      }
      return -1;
    }
  }

  /** The shift of x for the pattern seen so far, of a pattern of n characters. */
  ghost predicate Shifts(seen: seq<Char>, n: int, x: int, shift: int) {
    && n - |seen| <= shift <= n
    && (shift < n ==> n - 1 - shift < |seen| && seen[n - 1 - shift] == x)
    && forall k {:trigger seen[k]} :: 0 <= k < |seen| && n - 1 - shift < k ==> seen[k] != x
  }
}
