/** The pool of offers that players made each other. An offer is on the list of
    live offers, in the order of their making, or on the list of free ones. A
    withdrawn offer is only marked; it is moved to the free list by the next
    search that passes it. */
module Pending {
  const NONE := -1

  /** Offers are numbered in an unsigned variable of 32 bits. */
  const UINT_RANGE := 0x1_0000_0000

  /** The place that holds a link: one of two variables, or a field of an offer. */
  datatype Handle = NoHandle | LiveHead | FreeHead | NextOf(of: nat)

  datatype Offer = Offer(hnd: Handle, nxt: int, valid: bool, nth: nat, kind: int, whoto: int, whofrom: int)

  datatype Store = Store(pool: seq<Offer>, list: int, free: int)

  predicate Points(st: Store, h: Handle) {
    h.NextOf? ==> h.of < |st.pool|
  }

  function Get(st: Store, h: Handle): int
    requires Points(st, h)
  {
    match h
    case LiveHead => st.list
    case FreeHead => st.free
    case NextOf(i) => st.pool[i].nxt
    case NoHandle => NONE
  }

  function Put(st: Store, h: Handle, v: int): Store
    requires Points(st, h)
  {
    match h
    case LiveHead => st.(list := v)
    case FreeHead => st.(free := v)
    case NextOf(i) => st.(pool := st.pool[i := st.pool[i].(nxt := v)])
    case NoHandle => st
  }

  function SetHnd(st: Store, i: nat, h: Handle): Store
    requires i < |st.pool|
  {
    st.(pool := st.pool[i := st.pool[i].(hnd := h)])
  }

  /** The links of an offer lead somewhere. */
  predicate Linked(st: Store, i: int) {
    0 <= i < |st.pool| && NONE <= st.pool[i].nxt < |st.pool| && Points(st, st.pool[i].hnd)
  }

  function Cut(st: Store, p: int): Store
    requires Linked(st, p)
  {
    var h := st.pool[p].hnd;
    var nxt := if st.pool[p].nxt == p then NONE else st.pool[p].nxt;
    var st1 := Put(st, h, nxt);
    var st2 := if nxt != NONE then SetHnd(st1, nxt, h) else st1;
    st2.(pool := st2.pool[p := st2.pool[p].(hnd := NoHandle, nxt := NONE)])
  }

  function Ins(st: Store, h: Handle, p: nat): Store
    requires p < |st.pool| && Points(st, h) && NONE <= Get(st, h) < |st.pool|
  {
    var nxt := Get(st, h);
    var st1 := Put(st.(pool := st.pool[p := st.pool[p].(hnd := h, nxt := nxt)]), h, p);
    if nxt != NONE then SetHnd(st1, nxt, NextOf(p)) else st1
  }

  // The two lists ----------------------------------------------------------------------------------

  function At(l: seq<nat>, k: nat): int {
    if k < |l| then l[k] else NONE
  }

  /** The link that holds element k of a list that starts at h. */
  function Hold(h: Handle, l: seq<nat>, k: nat): Handle
    requires k <= |l|
  {
    if k == 0 then h else NextOf(l[k - 1])
  }

  predicate Distinct(l: seq<nat>) {
    forall i, j :: 0 <= i < j < |l| ==> l[i] != l[j]
  }

  ghost predicate Link(st: Store, h: Handle, l: seq<nat>, k: nat)
    requires k < |l|
  {
    l[k] < |st.pool| && st.pool[l[k]].nxt == At(l, k + 1) && st.pool[l[k]].hnd == Hold(h, l, k)
  }

  /** The links from h on go through the offers l. */
  ghost predicate Chain(st: Store, h: Handle, l: seq<nat>) {
    && (h == LiveHead || h == FreeHead) && Get(st, h) == At(l, 0) && Distinct(l)
    && forall k: nat {:trigger Link(st, h, l, k)} :: k < |l| ==> Link(st, h, l, k)
  }

  function Without(l: seq<nat>, k: nat): seq<nat>
    requires k < |l|
  {
    l[..k] + l[k + 1..]
  }

  function With(l: seq<nat>, k: nat, p: nat): seq<nat>
    requires k <= |l|
  {
    l[..k] + [p] + l[k..]
  }

  /** What an offer says, apart from where it is linked. */
  function Facts(o: Offer): Offer {
    o.(hnd := NoHandle, nxt := NONE)
  }

  ghost predicate Same(s: seq<Offer>, s': seq<Offer>) {
    |s| == |s'| && forall i {:trigger s'[i]} {:trigger s[i]} :: 0 <= i < |s| ==> Facts(s'[i]) == Facts(s[i])
  }

  /** Offer o, when element k is taken out of the list l. */
  function AfterCut(o: Offer, i: nat, h: Handle, l: seq<nat>, k: nat): Offer
    requires k < |l|
  {
    if i == l[k] then Facts(o)
    else
      var o1 := if k > 0 && i == l[k - 1] then o.(nxt := At(l, k + 1)) else o;
      if k + 1 < |l| && i == l[k + 1] then o1.(hnd := Hold(h, l, k)) else o1
  }

  lemma CutIs(st: Store, h: Handle, l: seq<nat>, k: nat)
    requires Chain(st, h, l) && k < |l|
    ensures Linked(st, l[k]) && |Cut(st, l[k]).pool| == |st.pool|
    ensures var c := Cut(st, l[k]);
            && c.list == (if k == 0 && h == LiveHead then At(l, 1) else st.list)
            && c.free == (if k == 0 && h == FreeHead then At(l, 1) else st.free)
            && forall i: nat {:trigger c.pool[i]} :: i < |st.pool| ==> c.pool[i] == AfterCut(st.pool[i], i, h, l, k)
  {
    assert Link(st, h, l, k);
    if k > 0 {
      assert Link(st, h, l, k - 1);
    }
    if k + 1 < |l| {
      assert Link(st, h, l, k + 1);
    }
  }

  lemma CutChain(st: Store, h: Handle, l: seq<nat>, k: nat)
    requires Chain(st, h, l) && k < |l|
    ensures Linked(st, l[k]) && Chain(Cut(st, l[k]), h, Without(l, k)) && Same(st.pool, Cut(st, l[k]).pool)
  {
    hide Cut, Put;
    CutIs(st, h, l, k);
    var st', l' := Cut(st, l[k]), Without(l, k);
    forall j: nat | j < |l'|
      ensures Link(st', h, l', j)
    {
      assert Link(st, h, l, if j < k then j else j + 1);
    }
  }

  /** The other list does not notice. */
  lemma CutOther(st: Store, h: Handle, l: seq<nat>, k: nat, h2: Handle, l2: seq<nat>)
    requires Chain(st, h, l) && k < |l| && Chain(st, h2, l2) && h2 != h && forall i :: i in l2 ==> i !in l
    ensures Linked(st, l[k]) && Chain(Cut(st, l[k]), h2, l2)
  {
    hide Cut, Put;
    CutIs(st, h, l, k);
    forall j: nat | j < |l2|
      ensures Link(Cut(st, l[k]), h2, l2, j)
    {
      assert Link(st, h2, l2, j) && l2[j] in l2 && l2[j] !in l;
    }
  }

  /** Offer o, when p is put into the list l before element k. */
  function AfterIns(o: Offer, i: nat, h: Handle, l: seq<nat>, k: nat, p: nat): Offer
    requires k <= |l|
  {
    if i == p then o.(hnd := Hold(h, l, k), nxt := At(l, k))
    else
      var o1 := if k > 0 && i == l[k - 1] then o.(nxt := p) else o;
      if k < |l| && i == l[k] then o1.(hnd := NextOf(p)) else o1
  }

  lemma InsIs(st: Store, h: Handle, l: seq<nat>, k: nat, p: nat)
    requires Chain(st, h, l) && k <= |l| && p !in l && p < |st.pool|
    ensures Points(st, Hold(h, l, k)) && NONE <= Get(st, Hold(h, l, k)) == At(l, k) < |st.pool|
    ensures |Ins(st, Hold(h, l, k), p).pool| == |st.pool|
    ensures var c := Ins(st, Hold(h, l, k), p);
            && c.list == (if k == 0 && h == LiveHead then p else st.list)
            && c.free == (if k == 0 && h == FreeHead then p else st.free)
            && forall i: nat {:trigger c.pool[i]} :: i < |st.pool| ==> c.pool[i] == AfterIns(st.pool[i], i, h, l, k, p)
  {
    if k > 0 {
      assert Link(st, h, l, k - 1);
    }
    if k < |l| {
      assert Link(st, h, l, k);
    }
  }

  lemma InsChain(st: Store, h: Handle, l: seq<nat>, k: nat, p: nat)
    requires Chain(st, h, l) && k <= |l| && p !in l && p < |st.pool|
    ensures Points(st, Hold(h, l, k)) && NONE <= Get(st, Hold(h, l, k)) == At(l, k) < |st.pool|
    ensures var st' := Ins(st, Hold(h, l, k), p); Chain(st', h, With(l, k, p)) && Same(st.pool, st'.pool)
  {
    hide Ins, Put;
    InsIs(st, h, l, k, p);
    var st', l' := Ins(st, Hold(h, l, k), p), With(l, k, p);
    forall j: nat | j < |l'|
      ensures Link(st', h, l', j)
    {
      if j != k {
        assert Link(st, h, l, if j < k then j else j - 1);
      }
    }
  }

  lemma InsOther(st: Store, h: Handle, l: seq<nat>, k: nat, p: nat, h2: Handle, l2: seq<nat>)
    requires Chain(st, h, l) && k <= |l| && p !in l && p < |st.pool|
    requires Chain(st, h2, l2) && h2 != h && p !in l2 && forall i :: i in l2 ==> i !in l
    ensures Points(st, Hold(h, l, k)) && NONE <= Get(st, Hold(h, l, k)) < |st.pool|
    ensures Chain(Ins(st, Hold(h, l, k), p), h2, l2)
  {
    hide Ins, Put;
    InsIs(st, h, l, k, p);
    forall j: nat | j < |l2|
      ensures Link(Ins(st, Hold(h, l, k), p), h2, l2, j)
    {
      assert Link(st, h2, l2, j) && l2[j] in l2 && l2[j] !in l;
    }
  }

  predicate Apart(a: seq<nat>, b: seq<nat>) {
    forall i :: i in a ==> i !in b
  }

  /** An offer is taken from the live list to the front of the free one. */
  lemma FreeMoves(st: Store, live: seq<nat>, spare: seq<nat>, k: nat)
    requires Chain(st, LiveHead, live) && Chain(st, FreeHead, spare) && Apart(live, spare) && k < |live|
    ensures var p := live[k];
            && Linked(st, p)
            && var c := Cut(st, p);
            && p < |c.pool| && NONE <= c.free < |c.pool|
            && var st' := Ins(c, FreeHead, p);
            && Chain(st', LiveHead, Without(live, k)) && Chain(st', FreeHead, [p] + spare) && Same(st.pool, st'.pool)
            && Apart(Without(live, k), [p] + spare)
  {
    hide Cut, Ins, Link;
    var p := live[k];
    assert p in live && p !in Without(live, k) && Apart(Without(live, k), spare);
    CutChain(st, LiveHead, live, k);
    CutOther(st, LiveHead, live, k, FreeHead, spare);
    InsChain(Cut(st, p), FreeHead, spare, 0, p);
    InsOther(Cut(st, p), FreeHead, spare, 0, p, LiveHead, Without(live, k));
    assert With(spare, 0, p) == [p] + spare;
  }

  /** Links stay links when only what offers say changes. */
  lemma Marked(st: Store, st': Store, h: Handle, l: seq<nat>)
    requires Chain(st, h, l) && st'.list == st.list && st'.free == st.free && |st'.pool| == |st.pool|
    requires forall i {:trigger st'.pool[i]} :: 0 <= i < |st.pool| ==>
      st'.pool[i].hnd == st.pool[i].hnd && st'.pool[i].nxt == st.pool[i].nxt
    ensures Chain(st', h, l)
  {
    forall k: nat | k < |l|
      ensures Link(st', h, l, k)
    {
      assert Link(st, h, l, k);
    }
  }

  /** The first free offer is taken. */
  lemma SpareTaken(st: Store, live: seq<nat>, spare: seq<nat>)
    requires Chain(st, LiveHead, live) && Chain(st, FreeHead, spare) && Apart(live, spare) && spare != []
    ensures var p := spare[0];
            && st.free == p && Linked(st, p) && p !in live && p !in spare[1..]
            && Cut(st, p).list == st.list && Same(st.pool, Cut(st, p).pool)
            && Chain(Cut(st, p), LiveHead, live) && Chain(Cut(st, p), FreeHead, spare[1..])
  {
    hide Cut, Link;
    assert spare[0] in spare && Without(spare, 0) == spare[1..];
    CutChain(st, FreeHead, spare, 0);
    CutIs(st, FreeHead, spare, 0);
    CutOther(st, FreeHead, spare, 0, LiveHead, live);
  }

  function Numbers(n: nat): (l: seq<nat>)
    ensures |l| == n && Distinct(l) && forall k :: 0 <= k < n ==> l[k] == k
  {
    seq(n, i => i)
  }

  function Before(i: nat): Handle {
    if i == 0 then FreeHead else NextOf(i - 1)
  }

  lemma InitChains(st: Store)
    requires st.list == NONE && st.free == if |st.pool| > 0 then 0 else NONE
    requires forall k: nat {:trigger st.pool[k]} :: k < |st.pool| ==>
      st.pool[k].hnd == Before(k) && st.pool[k].nxt == if k + 1 < |st.pool| then k + 1 else NONE
    ensures Chain(st, LiveHead, []) && Chain(st, FreeHead, Numbers(|st.pool|))
    ensures forall i :: 0 <= i < |st.pool| ==> i in Numbers(|st.pool|)
  {
    var n := |st.pool|;
    forall i | 0 <= i < n
      ensures i in Numbers(n)
    {
      assert Numbers(n)[i] == i;
    }
    forall k: nat | k < n
      ensures Link(st, FreeHead, Numbers(n), k)
    {
      assert st.pool[k].hnd == Before(k);
    }
  }

  // Searching --------------------------------------------------------------------------------------

  /** What is asked for; a negative number stands for any. */
  datatype Query = Query(from: int, to: int, kind: int)

  const ANY := Query(-1, -1, -1)

  predicate Match(o: Offer, q: Query) {
    && o.valid
    && (o.whofrom == q.from || q.from < 0) && (o.whoto == q.to || q.to < 0) && (o.kind == q.kind || q.kind < 0)
  }

  predicate Within(l: seq<nat>, n: nat) {
    forall i :: 0 <= i < |l| ==> l[i] < n
  }

  /** The valid offers on a list that match, in order. */
  function Select(s: seq<Offer>, l: seq<nat>, q: Query): seq<nat>
    requires Within(l, |s|)
  {
    if l == [] then [] else (if Match(s[l[0]], q) then [l[0]] else []) + Select(s, l[1..], q)
  }

  function First(l: seq<nat>): int {
    if l == [] then NONE else l[0]
  }

  /** Offer r gets a number; NONE is no offer. */
  function Numbered(s: seq<Offer>, r: int, n: nat): seq<Offer> {
    if 0 <= r < |s| then s[r := s[r].(nth := n)] else s
  }

  lemma {:induction false} SelectConcat(s: seq<Offer>, a: seq<nat>, b: seq<nat>, q: Query)
    requires Within(a, |s|) && Within(b, |s|)
    ensures Within(a + b, |s|) && Select(s, a + b, q) == Select(s, a, q) + Select(s, b, q)
    decreases |a|
  {
    if a == [] {
      assert a + b == b;
    } else {
      SelectConcat(s, a[1..], b, q);
      assert (a + b)[1..] == a[1..] + b;
    }
  }

  /** Searching again among what was found. */
  lemma {:induction false} SelectTwice(s: seq<Offer>, l: seq<nat>, q: Query)
    requires Within(l, |s|)
    ensures Within(Select(s, l, ANY), |s|) && Select(s, Select(s, l, ANY), q) == Select(s, l, q)
    decreases |l|
  {
    if l != [] {
      SelectTwice(s, l[1..], q);
      var a, r := if s[l[0]].valid then [l[0]] else [], Select(s, l[1..], ANY);
      assert Select(s, l, ANY) == a + r;
      SelectConcat(s, a, r, q);
    }
  }

  /** Only what the offers say counts. */
  lemma {:induction false} SelectSame(s: seq<Offer>, s': seq<Offer>, l: seq<nat>, q: Query)
    requires Within(l, |s|) && |s'| == |s|
    requires forall i :: 0 <= i < |l| ==> Match(s'[l[i]], q) == Match(s[l[i]], q)
    ensures Select(s', l, q) == Select(s, l, q)
    decreases |l|
  {
    if l != [] {
      assert Match(s'[l[0]], q) == Match(s[l[0]], q);
      SelectSame(s, s', l[1..], q);
    }
  }

  lemma SelectNone(s: seq<Offer>, q: Query)
    ensures Select(s, [], q) == []
  {
  }

  lemma SelectFacts(s: seq<Offer>, s': seq<Offer>, l: seq<nat>, q: Query)
    requires Within(l, |s|) && Same(s, s')
    ensures Select(s', l, q) == Select(s, l, q)
  {
    hide Select;
    SelectSame(s, s', l, q);
  }

  lemma SelectNumbered(s: seq<Offer>, l: seq<nat>, r: int, n: nat, q: Query)
    requires Within(l, |s|)
    ensures Select(Numbered(s, r, n), l, q) == Select(s, l, q)
  {
    hide Select;
    SelectSame(s, Numbered(s, r, n), l, q);
  }

  lemma {:induction false} SelectIn(s: seq<Offer>, l: seq<nat>, q: Query)
    requires Within(l, |s|)
    ensures forall i :: i in Select(s, l, q) <==> i in l && Match(s[i], q)
    decreases |l|
  {
    if l != [] {
      SelectIn(s, l[1..], q);
      assert l == [l[0]] + l[1..];
    }
  }

  lemma SelectSplit(s: seq<Offer>, l: seq<nat>, k: nat, q: Query)
    requires Within(l, |s|) && k < |l|
    ensures Select(s, l, q) ==
      Select(s, l[..k], q) + (if Match(s[l[k]], q) then [l[k]] else []) + Select(s, l[k + 1..], q)
  {
    SelectConcat(s, l[..k], l[k..], q);
    assert l[..k] + l[k..] == l && l[k..][1..] == l[k + 1..];
  }

  lemma SelectWithout(s: seq<Offer>, l: seq<nat>, k: nat, q: Query)
    requires Within(l, |s|) && k < |l| && !s[l[k]].valid
    ensures Select(s, Without(l, k), q) == Select(s, l, q)
  {
    SelectSplit(s, l, k, q);
    SelectConcat(s, l[..k], l[k + 1..], q);
  }

  /** A list goes on where a withdrawn offer was taken out. */
  lemma SelectFreed(s: seq<Offer>, s': seq<Offer>, l: seq<nat>, base: nat, k: nat, q: Query)
    requires Within(l, |s|) && Same(s, s') && base <= k < |l| && !s[l[k]].valid
    ensures var l' := Without(l, k);
            && At(l', k) == At(l, k + 1) && (forall i :: base <= i < k ==> l'[i] == l[i])
            && l'[..base] == l[..base] && l'[base..k] == l[base..k]
            && Select(s', l'[base..], ANY) == Select(s, l[base..], ANY)
            && Select(s', l'[base..k], q) == Select(s, l[base..k], q)
  {
    hide Select;
    var l' := Without(l, k);
    assert l'[base..] == Without(l[base..], k - base) && l'[base..k] == l[base..k];
    SelectFacts(s, s', l'[base..], ANY);
    SelectWithout(s, l[base..], k - base, ANY);
    SelectFacts(s, s', l[base..k], q);
  }

  lemma SelectMore(s: seq<Offer>, l: seq<nat>, base: nat, k: nat, q: Query)
    requires Within(l, |s|) && base <= k < |l|
    ensures Select(s, l[base..k + 1], q) == Select(s, l[base..k], q) + if Match(s[l[k]], q) then [l[k]] else []
  {
    assert l[base..k + 1] == l[base..k] + [l[k]];
    SelectConcat(s, l[base..k], [l[k]], q);
  }

  /** A list from a match on starts with it. */
  lemma Heads(s: seq<Offer>, l: seq<nat>, k: nat, q: Query)
    requires Within(l, |s|) && k <= |l| && (k < |l| ==> Match(s[l[k]], q))
    ensures k == |l| ==> Select(s, l[k..], q) == []
    ensures k < |l| ==> Select(s, l[k..], q) == [l[k]] + Select(s, l[k + 1..], q)
  {
    if k < |l| {
      assert l[k..][1..] == l[k + 1..];
    }
  }

  /** The first match is where the search stopped. */
  lemma Answer(s: seq<Offer>, l: seq<nat>, s': seq<Offer>, l': seq<nat>, at: nat, q: Query)
    requires Within(l, |s|) && Within(l', |s'|) && Same(s, s') && at <= |l'|
    requires Select(s', l', ANY) == Select(s, l, ANY) && Select(s', l'[..at], q) == []
    requires at < |l'| ==> Match(s'[l'[at]], q)
    ensures Select(s', l'[at..], q) == Select(s, l, q) && At(l', at) == First(Select(s, l, q))
  {
    hide Select, Match, Same;
    SelectTwice(s, l, q);
    SelectTwice(s', l', q);
    SelectFacts(s, s', Select(s, l, ANY), q);
    SelectConcat(s', l'[..at], l'[at..], q);
    assert l'[..at] + l'[at..] == l';
    Heads(s', l', at, q);
  }

  /** Before base, nothing happened. */
  lemma AnswerAll(s: seq<Offer>, l: seq<nat>, base: nat, s': seq<Offer>, l': seq<nat>)
    requires Within(l, |s|) && Within(l', |s'|) && Same(s, s') && base <= |l| && base <= |l'| && l'[..base] == l[..base]
    requires Select(s', l'[base..], ANY) == Select(s, l[base..], ANY)
    ensures Select(s', l', ANY) == Select(s, l, ANY)
  {
    hide Select;
    SelectConcat(s, l[..base], l[base..], ANY);
    SelectConcat(s', l'[..base], l'[base..], ANY);
    SelectFacts(s, s', l[..base], ANY);
    assert l == l[..base] + l[base..] && l' == l'[..base] + l'[base..];
  }

  /** The offer that was found is withdrawn: the ones behind it are still found. */
  lemma DropFound(s: seq<Offer>, l: seq<nat>, k: nat, q: Query)
    requires Within(l, |s|) && Distinct(l) && k < |l|
    ensures var s' := s[l[k] := s[l[k]].(valid := false)];
            && Select(s', l, ANY) == Remaining(Select(s, l, ANY), {l[k]})
            && Select(s', l[k + 1..], q) == Select(s, l[k + 1..], q)
  {
    hide Select, Remaining;
    SelectMarked(s, l, l[k], ANY);
    SelectSame(s, s[l[k] := s[l[k]].(valid := false)], l[k + 1..], q);
  }

  lemma DropFirst(s: seq<Offer>, l: seq<nat>, k: nat, q: Query)
    requires Within(l, |s|) && Distinct(l) && k < |l| && Select(s, l[0..k], q) == [] && Match(s[l[k]], q)
    ensures var s' := s[l[k] := s[l[k]].(valid := false)];
            && Select(s', l, ANY) == Remaining(Select(s, l, ANY), {l[k]})
            && Select(s, l, q) == [l[k]] + Select(s', l, q)
  {
    hide Select, Remaining, Match;
    var s' := s[l[k] := s[l[k]].(valid := false)];
    DropFound(s, l, k, q);
    SelectSplit(s, l, k, q);
    assert !Match(s'[l[k]], q) by {
      Invalid(s'[l[k]], q);
    }
    SelectSplit(s', l, k, q);
    assert l[..k] == l[0..k];
    SelectSame(s, s', l[..k], q);
  }

  lemma Invalid(o: Offer, q: Query)
    requires !o.valid
    ensures !Match(o, q)
  {
  }

  lemma {:induction false} SelectAll(s: seq<Offer>, l: seq<nat>)
    requires Within(l, |s|) && forall i :: 0 <= i < |l| ==> s[l[i]].valid
    ensures Select(s, l, ANY) == l
    decreases |l|
  {
    if l != [] {
      assert s[l[0]].valid;
      SelectAll(s, l[1..]);
    }
  }

  /** A new offer, as it is made. */
  function Said(from: int, to: int, kind: int): Offer {
    Offer(NoHandle, NONE, true, 0, kind, to, from)
  }

  /** A new offer comes last, if it matches. */
  lemma Appended(s: seq<Offer>, s': seq<Offer>, l: seq<nat>, p: nat, q: Query)
    requires Within(l, |s|) && p !in l && p < |s| && |s'| == |s|
    requires forall i {:trigger s'[i]} :: 0 <= i < |s| && i != p ==> Facts(s'[i]) == Facts(s[i])
    ensures Select(s', l + [p], q) == Select(s, l, q) + if Match(s'[p], q) then [p] else []
  {
    SelectSame(s, s', l, q);
    SelectConcat(s', l, [p], q);
    assert Select(s', [p], q) == if Match(s'[p], q) then [p] else [];
  }

  /** What remains of a list when some elements go. */
  function Remaining(l: seq<nat>, gone: set<nat>): seq<nat> {
    if l == [] then [] else (if l[0] in gone then [] else [l[0]]) + Remaining(l[1..], gone)
  }

  function Elements(l: seq<nat>): (s: set<nat>)
    ensures forall i: nat :: i in s <==> i in l
  {
    set k | 0 <= k < |l| :: l[k]
  }

  /** Withdrawing an offer takes it out of what is found, and nothing else. */
  lemma {:induction false} SelectMarked(s: seq<Offer>, l: seq<nat>, p: nat, q: Query)
    requires Within(l, |s|) && p < |s|
    ensures Select(s[p := s[p].(valid := false)], l, q) == Remaining(Select(s, l, q), {p})
    decreases |l|
  {
    if l != [] {
      SelectMarked(s, l[1..], p, q);
      var a, r := if Match(s[l[0]], q) then [l[0]] else [], Select(s, l[1..], q);
      assert Select(s, l, q) == a + r && (if a == [] then a + r == r else (a + r)[1..] == r && (a + r)[0] == l[0]);
    }
  }

  lemma {:induction false} RemainingOne(l: seq<nat>, v: nat)
    requires Distinct(l)
    ensures |Remaining(l, {v})| == if v in l then |l| - 1 else |l|
    decreases |l|
  {
    if l != [] {
      assert l == [l[0]] + l[1..];
      assert l[0] !in l[1..];
      RemainingOne(l[1..], v);
    }
  }

  lemma {:induction false} RemainingTwice(l: seq<nat>, a: set<nat>, b: set<nat>)
    ensures Remaining(Remaining(l, a), b) == Remaining(l, a + b)
    decreases |l|
  {
    if l != [] {
      var r := Remaining(l[1..], a);
      RemainingTwice(l[1..], a, b);
      assert Remaining(l, a) == if l[0] in a then r else [l[0]] + r;
      assert ([l[0]] + r)[1..] == r;
    }
  }

  lemma {:induction false} RemainingAll(l: seq<nat>)
    ensures Remaining(l, {}) == l
    decreases |l|
  {
    if l != [] {
      RemainingAll(l[1..]);
    }
  }

  /** What remains when one element goes. */
  lemma {:induction false} RemainingIs(l: seq<nat>, p: nat)
    requires Distinct(l)
    ensures p !in l ==> Remaining(l, {p}) == l
    ensures forall k {:trigger l[k]} :: 0 <= k < |l| && l[k] == p ==> Remaining(l, {p}) == l[..k] + l[k + 1..]
    decreases |l|
  {
    if l != [] {
      RemainingIs(l[1..], p);
      assert l == [l[0]] + l[1..];
      forall k | 0 < k < |l| && l[k] == p
        ensures Remaining(l, {p}) == l[..k] + l[k + 1..]
      {
        assert l[1..][k - 1] == p;
        assert l[..k] == [l[0]] + l[1..][..k - 1] && l[k + 1..] == l[1..][k..];
      }
      assert l[0] == p ==> p !in l[1..];
    }
  }

  /** If the same offers stand, and say the same, every search finds the same. */
  lemma SelectStays(s: seq<Offer>, l: seq<nat>, s': seq<Offer>, l': seq<nat>, r: int, n: nat, q: Query)
    requires Within(l, |s|) && Within(l', |s'|) && Same(Numbered(s, r, n), s')
    requires Select(s', l', ANY) == Select(s, l, ANY)
    ensures Select(s', l', q) == Select(s, l, q)
  {
    hide Select, Match;
    SelectTwice(s, l, q);
    SelectTwice(s', l', q);
    var stand := Select(s, l, ANY);
    SelectNumbered(s, stand, r, n, q);
    SelectFacts(Numbered(s, r, n), s', stand, q);
  }

  lemma {:induction false} SelectDistinct(s: seq<Offer>, l: seq<nat>, q: Query)
    requires Within(l, |s|) && Distinct(l)
    ensures Distinct(Select(s, l, q))
    decreases |l|
  {
    if l != [] {
      SelectDistinct(s, l[1..], q);
      SelectIn(s, l[1..], q);
      assert l[0] !in l[1..];
    }
  }

  /** How many offers stand after one is withdrawn. */
  lemma Withdrawn(s: seq<Offer>, l: seq<nat>, p: nat)
    requires Within(l, |s|) && Distinct(l) && p < |s| && (p !in l ==> !s[p].valid)
    ensures |Select(s[p := s[p].(valid := false)], l, ANY)| == |Select(s, l, ANY)| - if s[p].valid then 1 else 0
  {
    hide Select, Remaining;
    SelectMarked(s, l, p, ANY);
    SelectDistinct(s, l, ANY);
    SelectIn(s, l, ANY);
    RemainingOne(Select(s, l, ANY), p);
  }

  // The pool ---------------------------------------------------------------------------------------

  class Pool {
    const pool: array<Offer>
    var list: int
    var free: int
    var tail: Handle
    var avail: int
    var valid: int
    ghost var live: seq<nat>
    ghost var spare: seq<nat>

    function St(): Store
      reads this, pool
    {
      Store(pool[..], list, free)
    }

    /** The lists are apart, and the remembered end of the live list, if any, is its end. */
    ghost predicate Sound()
      reads this, pool
    {
      && Chain(St(), LiveHead, live) && Chain(St(), FreeHead, spare)
      && Within(live, pool.Length) && Within(spare, pool.Length)
      && Apart(live, spare)
      && (tail == NoHandle || tail == Hold(LiveHead, live, |live|))
    }

    /** Every offer is on one list, and the counters are right. */
    ghost predicate Valid()
      reads this, pool
    {
      && Sound() && |live| + |spare| == pool.Length && (forall i :: 0 <= i < pool.Length ==> i in live || i in spare)
      && (forall i :: i in spare ==> !pool[i].valid)
      && avail == |spare| && valid == |Select(pool[..], live, ANY)|
    }

    /** The offers that stand and match, oldest first. */
    ghost function Standing(q: Query): seq<nat>
      requires Within(live, pool.Length)
      reads this, pool
    {
      Select(pool[..], live, q)
    }

    method CutOffer(p: nat)
      requires Linked(St(), p)
      modifies this`list, this`free, pool
      ensures St() == Cut(old(St()), p)
    {
      var h, nxt := pool[p].hnd, pool[p].nxt;
      if nxt == p {
        nxt := NONE;
      }
      PutLink(h, nxt);
      if nxt != NONE {
        pool[nxt] := pool[nxt].(hnd := h);
      }
      pool[p] := pool[p].(hnd := NoHandle, nxt := NONE);
    }

    method PutLink(h: Handle, v: int)
      requires Points(St(), h)
      modifies this`list, this`free, pool
      ensures St() == Put(old(St()), h, v)
    {
      match h
      case NoHandle =>
      case LiveHead => list := v;
      case FreeHead => free := v;
      case NextOf(i) => pool[i] := pool[i].(nxt := v);
    }

    method InsOffer(h: Handle, p: nat)
      requires p < pool.Length && Points(St(), h) && NONE <= Get(St(), h) < pool.Length
      modifies this`list, this`free, pool
      ensures St() == Ins(old(St()), h, p)
    {
      var nxt := Follow(h);
      pool[p] := pool[p].(hnd := h, nxt := nxt);
      PutLink(h, p);
      if nxt != NONE {
        pool[nxt] := pool[nxt].(hnd := NextOf(p));
      }
    }

    function Follow(h: Handle): (v: int)
      requires Points(St(), h)
      reads this, pool
      ensures v == Get(St(), h)
    {
      match h
      case LiveHead => list
      case FreeHead => free
      case NextOf(i) => pool[i].nxt
      case NoHandle => NONE
    }

    /** pending_init */
    constructor (size: nat)
      ensures Valid() && live == [] && |spare| == size && fresh(pool)
    {
      hide Select, Chain;
      pool := new Offer[size](_ => Offer(NoHandle, NONE, false, 0, 0, 0, 0));
      list, free, tail, avail, valid := NONE, NONE, LiveHead, 0, 0;
      live, spare := [], Numbers(size);
      new;
      var hnd := FreeHead;
      for i := 0 to pool.Length
        invariant hnd == Before(i) && pool.Length == size
        invariant list == NONE && free == if i > 0 then 0 else NONE
        invariant forall k {:trigger pool[k]} :: 0 <= k < size ==> !pool[k].valid
        invariant forall k: nat {:trigger pool[k]} :: k < i ==> pool[k].hnd == Before(k)
        invariant forall k: nat {:trigger pool[k]} :: k + 1 < i ==> pool[k].nxt == k + 1
        modifies this`list, this`free, pool
      {
        pool[i] := pool[i].(valid := false, nth := 0, hnd := hnd);
        PutLink(hnd, i);
        hnd := NextOf(i);
      }
      PutLink(hnd, NONE);
      avail := pool.Length;
      InitChains(St());
      SelectNone(pool[..], ANY);
    }

    /** pending_free, for a withdrawn offer on the live list. */
    method FreeOffer(p: nat, ghost k: nat)
      requires Valid() && k < |live| && live[k] == p && !pool[p].valid
      modifies this`list, this`free, this`tail, this`avail, this`valid, this`live, this`spare, pool
      ensures Valid() && live == Without(old(live), k) && spare == [p] + old(spare) && Same(old(pool[..]), pool[..])
    {
      hide Select, Cut, Ins, Chain, Match;
      FreeMoves(St(), live, spare, k);
      SelectWithout(pool[..], live, k, ANY);
      if tail == NextOf(p) {
        tail := NoHandle;
      }
      CutOffer(p);
      InsOffer(FreeHead, p);
      live, spare := Without(live, k), [p] + spare;
      avail := avail + 1;
      valid := if pool[p].valid then valid + 1 else valid;
      assert St() == Ins(Cut(old(St()), p), FreeHead, p);
      SelectFacts(old(pool[..]), pool[..], live, ANY);
      pool[p] := pool[p].(valid := false);
      assert pool[..] == Ins(Cut(old(St()), p), FreeHead, p).pool;
    }

    /** pending_alloc */
    method Alloc() returns (p: int)
      requires Valid()
      modifies this`list, this`free, this`avail, this`valid, this`spare, pool
      ensures p == First(old(spare)) && list == old(list)
      ensures p == NONE ==> Valid() && unchanged(this, pool)
      ensures p != NONE ==> Sound() && [p] + spare == old(spare) && avail == |spare| && valid == old(valid) + 1
      ensures p != NONE ==> p !in spare && p !in live && p < pool.Length
      ensures p != NONE ==> Same(old(pool[..])[p := old(pool[p]).(valid := true)], pool[..])
    {
      p := free;
      if p == NONE {
        assert spare == [];
        return;
      }
      hide Select, Cut, Link, Chain;
      SpareTaken(St(), live, spare);
      CutOffer(p);
      spare := spare[1..];
      ghost var st := St();
      avail := avail - 1;
      valid := valid + 1;
      pool[p] := pool[p].(valid := true);
      Marked(st, St(), LiveHead, live);
      Marked(st, St(), FreeHead, spare);
    }

    /** pending_add: the new offer becomes the last one. */
    method Add(p: nat)
      requires Sound() && p !in live && p !in spare && p < pool.Length
      modifies this`list, this`free, this`tail, this`live, pool
      ensures Sound() && live == old(live) + [p] && Same(old(pool[..]), pool[..])
    {
      hide Select, Cut, Ins;
      ghost var k := |live|;
      if tail == NoHandle {
        tail := LiveHead;
        k := 0;
      }
      ToEnd(k);
      InsChain(St(), LiveHead, live, |live|, p);
      InsOther(St(), LiveHead, live, |live|, p, FreeHead, spare);
      InsOffer(tail, p);
      live := With(live, |live|, p);
      ToEnd(|live| - 1);
    }

    /** Follow the links to the end of the live list. */
    method ToEnd(ghost k0: nat)
      requires Chain(St(), LiveHead, live) && Within(live, pool.Length)
      requires k0 <= |live| && tail == Hold(LiveHead, live, k0)
      modifies this`tail
      ensures tail == Hold(LiveHead, live, |live|)
    {
      ghost var k := k0;
      while Follow(tail) != NONE
        invariant k <= |live| && tail == Hold(LiveHead, live, k)
        invariant Chain(St(), LiveHead, live)
        decreases |live| - k
      {
        if k > 0 {
          assert Link(St(), LiveHead, live, k - 1);
        }
        tail := NextOf(Follow(tail));
        k := k + 1;
      }
      if k > 0 {
        assert Link(St(), LiveHead, live, k - 1);
      }
    }

    /** pending_new: fails exactly if the free list is empty. */
    method New(from: int, to: int, kind: int) returns (p: int)
      requires Valid()
      modifies this`list, this`free, this`tail, this`avail, this`valid, this`live, this`spare, pool
      ensures Valid() && (p == NONE <==> old(spare) == [])
      ensures p == NONE ==> unchanged(this, pool)
      ensures p != NONE ==> p in old(spare) && live == old(live) + [p] && [p] + spare == old(spare)
      ensures p != NONE ==> Same(old(pool[..])[p := Said(from, to, kind)], pool[..])
      ensures p != NONE ==> 0 <= p < pool.Length && pool[p].valid
      ensures p != NONE ==> pool[p].whofrom == from && pool[p].whoto == to && pool[p].kind == kind
      ensures p != NONE ==> forall q: Query {:trigger Standing(q)} ::
        if (q.from < 0 || q.from == from) && (q.to < 0 || q.to == to) && (q.kind < 0 || q.kind == kind)
        then Standing(q) == old(Standing(q)) + [p] else Standing(q) == old(Standing(q))
    {
      hide Select, Chain;
      p := Alloc();
      if p != NONE {
        ghost var s0 := old(pool[..]);
        ghost var o := Said(from, to, kind);
        ghost var st := St();
        pool[p] := pool[p].(nth := 0, whofrom := from, whoto := to, kind := kind);
        Marked(st, St(), LiveHead, live);
        Marked(st, St(), FreeHead, spare);
        Add(p);
        assert Same(s0[p := o], pool[..]);
        assert Facts(s0[p := o][p]) == Facts(pool[..][p]);
        Appended(s0, pool[..], old(live), p, ANY);
        forall q
          ensures Standing(q) == old(Standing(q)) + if Match(pool[p], q) then [p] else []
        {
          Appended(s0, pool[..], old(live), p, q);
        }
      }
    }

    /** pending_delete: the offer stands no longer, but stays where it is. */
    method Delete(p: int)
      requires Valid() && NONE <= p < pool.Length
      modifies this`valid, pool
      ensures Valid()
      ensures pool[..] == if p == NONE then old(pool[..]) else old(pool[..])[p := old(pool[p]).(valid := false)]
      ensures forall q {:trigger Standing(q)} ::
        Standing(q) == if p == NONE then old(Standing(q)) else Remaining(old(Standing(q)), {p})
    {
      if p == NONE {
        return;
      }
      hide Select, Chain, Remaining;
      Withdrawn(pool[..], live, p);
      if pool[p].valid {
        valid := valid - 1;
      }
      ghost var st := St();
      pool[p] := pool[p].(valid := false);
      Marked(st, St(), LiveHead, live);
      Marked(st, St(), FreeHead, spare);
      forall q
        ensures Standing(q) == Remaining(old(Standing(q)), {p})
      {
        SelectMarked(st.pool, live, p, q);
      }
    }

    /** Where the live list begins. */
    lemma Begins()
      requires Valid()
      ensures list == At(live, 0)
    {
    }

    /** The offer behind a place of the live list. */
    lemma NextIs(k: nat)
      requires Valid() && k < |live|
      ensures live[k] < pool.Length && pool[live[k]].nxt == At(live, k + 1) && pool[live[k]].nxt != live[k]
    {
      assert Link(St(), LiveHead, live, k);
    }

    /** The loop of pending_find and pending_next, from element base of the live
        list on: withdrawn offers that it passes become free. */
    method Seek(ptr0: int, q: Query, ghost base: nat) returns (ptr: int, ghost at: nat)
      requires Valid() && base <= |live| && ptr0 == At(live, base)
      modifies this`list, this`free, this`tail, this`avail, this`valid, this`live, this`spare, pool
      ensures Valid() && Same(old(pool[..]), pool[..])
      ensures base <= at <= |live| && ptr == At(live, at) && (ptr != NONE ==> Match(pool[ptr], q))
      ensures live[..base] == old(live[..base])
      ensures Select(pool[..], live[base..], ANY) == old(Select(pool[..], live[base..], ANY))
      ensures Select(pool[..], live[base..at], q) == []
      ensures forall i :: base <= i < at ==> pool[live[i]].valid
    {
      hide Select, Chain, Link, Without;
      ptr, at := ptr0, base;
      SelectNone(pool[..], q);
      assert live[base..base] == [];
      while ptr != NONE
        invariant Valid() && Same(old(pool[..]), pool[..])
        invariant base <= at <= |live| && ptr == At(live, at)
        invariant live[..base] == old(live[..base])
        invariant Select(pool[..], live[base..], ANY) == old(Select(pool[..], live[base..], ANY))
        invariant Select(pool[..], live[base..at], q) == []
        invariant forall i :: base <= i < at ==> pool[live[i]].valid
        decreases |live| - at
      {
        NextIs(at);
        var nxt := if pool[ptr].nxt == ptr then NONE else pool[ptr].nxt;
        if !pool[ptr].valid {
          ghost var s0, l0 := pool[..], live;
          FreeOffer(ptr, at);
          SelectFreed(s0, pool[..], l0, base, at, q);
        } else if Match(pool[ptr], q) {
          break;
        } else {
          SelectMore(pool[..], live, base, at, q);
          at := at + 1;
        }
        ptr := nxt;
      }
    }

    /** A search that started at element base came to offer ptr, which is element
        at: what it passed stands, and does not match. */
    ghost predicate Reached(ptr: int, at: nat, base: nat, q: Query)
      requires Within(live, pool.Length)
      reads this, pool
    {
      && base <= at <= |live| && ptr == At(live, at)
      && Select(pool[..], live[base..at], q) == []
      && (ptr != NONE ==> Match(pool[ptr], q))
      && forall i :: base <= i < at ==> pool[live[i]].valid
    }

    method Number(ptr: nat, n: nat)
      requires Valid() && ptr < pool.Length
      modifies pool
      ensures Valid() && pool[..] == Numbered(old(pool[..]), ptr, n)
    {
      hide Select, Chain;
      ghost var st := St();
      pool[ptr] := pool[ptr].(nth := n);
      SelectNumbered(st.pool, live, ptr, n, ANY);
      Marked(st, St(), LiveHead, live);
      Marked(st, St(), FreeHead, spare);
    }

    /** A search, whose answer gets the number n. */
    method Look(ptr0: int, q: Query, ghost base: nat, n: nat) returns (ptr: int, ghost at: nat)
      requires Valid() && base <= |live| && ptr0 == At(live, base)
      modifies this`list, this`free, this`tail, this`avail, this`valid, this`live, this`spare, pool
      ensures Valid() && ptr == First(old(Select(pool[..], live[base..], q))) && Reached(ptr, at, base, q)
      ensures Same(Numbered(old(pool[..]), ptr, n), pool[..])
      ensures Standing(ANY) == old(Standing(ANY)) && live[..base] == old(live[..base])
      ensures forall x {:trigger Standing(x)} :: Standing(x) == old(Standing(x))
      ensures Select(pool[..], live[at..], q) == old(Select(pool[..], live[base..], q))
    {
      hide Select, Chain, Link;
      ptr, at := Seek(ptr0, q, base);
      AnswerAll(old(pool[..]), old(live), base, pool[..], live);
      assert live[base..][..at - base] == live[base..at] && live[base..][at - base..] == live[at..];
      Answer(old(pool[..]), old(live[base..]), pool[..], live[base..], at - base, q);
      if ptr != NONE {
        SelectNumbered(pool[..], live, ptr, n, ANY);
        SelectNumbered(pool[..], live[base..at], ptr, n, q);
        SelectNumbered(pool[..], live[at..], ptr, n, q);
        Number(ptr, n);
      }
      forall x
        ensures Standing(x) == old(Standing(x))
      {
        SelectStays(old(pool[..]), old(live), pool[..], live, ptr, n, x);
      }
    }

    /** pending_find: the oldest offer that matches. */
    method Find(q: Query) returns (ptr: int, ghost at: nat)
      requires Valid()
      modifies this`list, this`free, this`tail, this`avail, this`valid, this`live, this`spare, pool
      ensures Valid() && ptr == (if old(Standing(q)) == [] then NONE else old(Standing(q))[0]) && Reached(ptr, at, 0, q)
      ensures Same(Numbered(old(pool[..]), ptr, 1), pool[..]) && (ptr != NONE ==> pool[ptr].nth == 1)
      ensures forall x {:trigger Standing(x)} :: Standing(x) == old(Standing(x))
      ensures Select(pool[..], live[at..], q) == Standing(q) == old(Standing(q))
    {
      hide Select, Link;
      assert live[0..] == live;
      ptr, at := Look(list, q, 0, 1);
      SelectConcat(pool[..], live[0..at], live[at..], q);
      assert live[0..at] + live[at..] == live;
    }

    /** pending_next: the oldest match after p, which may have been withdrawn since
        it was found. p is element k of the live list. */
    method Next(p: int, q: Query, ghost k: nat) returns (ptr: int, ghost at: nat)
      requires Valid() && (p != NONE ==> k < |live| && live[k] == p)
      modifies this`list, this`free, this`tail, this`avail, this`valid, this`live, this`spare, pool
      ensures Valid()
      ensures p == NONE ==> ptr == NONE && unchanged(this, pool)
      ensures p != NONE ==> var l := old(Select(pool[..], live[k + 1..], q)); ptr == if l == [] then NONE else l[0]
      ensures p != NONE ==> Same(Numbered(old(pool[..]), ptr, (old(pool[p]).nth + 1) % UINT_RANGE), pool[..])
      ensures p != NONE && ptr != NONE ==> 0 <= ptr < pool.Length
      ensures p != NONE && ptr != NONE ==> pool[ptr].nth == (old(pool[p].nth) + 1) % 0x1_0000_0000
      ensures forall x {:trigger Standing(x)} :: Standing(x) == old(Standing(x))
      ensures p != NONE ==> Reached(ptr, at, k + 1, q) && live[..k + 1] == old(live[..k + 1])
      ensures p != NONE ==> Select(pool[..], live[at..], q) == old(Select(pool[..], live[k + 1..], q))
    {
      at := 0;
      if p == NONE {
        return NONE, 0;
      }
      hide Select, Chain, Link, Facts, Match;
      NextIs(k);
      ptr, at := Look(pool[p].nxt, q, k + 1, (pool[p].nth + 1) % UINT_RANGE);
    }

    /** pending_count */
    method Count(q: Query) returns (count: nat)
      requires Valid()
      modifies this`list, this`free, this`tail, this`avail, this`valid, this`live, this`spare, pool
      ensures Valid() && count == |old(Standing(q))|
      ensures live == old(Standing(ANY)) && Same(old(pool[..]), pool[..])
      ensures forall x {:trigger Standing(x)} :: Standing(x) == old(Standing(x))
    {
      hide Select, Link, Without, Chain;
      Begins();
      var ptr := list;
      ghost var at: nat := 0;
      count := 0;
      SelectNone(pool[..], q);
      assert live[0..0] == [];
      while ptr != NONE
        invariant Valid() && Same(old(pool[..]), pool[..])
        invariant at <= |live| && ptr == At(live, at)
        invariant Select(pool[..], live[0..], ANY) == old(Select(pool[..], live[0..], ANY))
        invariant count == |Select(pool[..], live[0..at], q)|
        invariant forall i :: 0 <= i < at ==> pool[live[i]].valid
        decreases |live| - at
      {
        NextIs(at);
        var nxt := if pool[ptr].nxt == ptr then NONE else pool[ptr].nxt;
        if !pool[ptr].valid {
          ghost var s0, l0 := pool[..], live;
          FreeOffer(ptr, at);
          SelectFreed(s0, pool[..], l0, 0, at, q);
        } else {
          if Match(pool[ptr], q) {
            count := count + 1;
          }
          SelectMore(pool[..], live, 0, at, q);
          at := at + 1;
        }
        ptr := nxt;
      }
      assert live[0..at] == live == live[0..] && old(live) == old(live[0..]);
      SelectAll(pool[..], live);
      SelectTwice(old(pool[..]), old(live), q);
      SelectFacts(old(pool[..]), pool[..], live, q);
      forall x
        ensures Standing(x) == old(Standing(x))
      {
        SelectStays(old(pool[..]), old(live), pool[..], live, NONE, 0, x);
      }
    }

    /** Withdraw a matching offer, which is element k of the live list. */
    method Strike(p: nat, q: Query, ghost k: nat)
      requires Valid() && k < |live| && p == live[k] && Match(pool[p], q)
      modifies this`valid, pool
      ensures Valid() && forall x {:trigger Standing(x)} :: Standing(x) == Remaining(old(Standing(x)), {p})
      ensures Select(pool[..], live[k + 1..], q) == old(Select(pool[..], live[k + 1..], q))
      ensures old(Select(pool[..], live[0..k], q)) == [] ==> old(Standing(q)) == [p] + Standing(q)
    {
      hide Select, Link, Remaining, Match, Facts, Same;
      DropFound(pool[..], live, k, q);
      if Select(pool[..], live[0..k], q) == [] {
        DropFirst(pool[..], live, k, q);
      }
      Delete(p);
    }

    /** A loop over the offers that match, in which the offer that was just found
        may be withdrawn before the next one is asked for. */
    method Visit(q: Query, doomed: set<nat>) returns (seen: seq<nat>)
      requires Valid()
      modifies this`list, this`free, this`tail, this`avail, this`valid, this`live, this`spare, pool
      ensures Valid() && seen == old(Standing(q))
      ensures forall x {:trigger Standing(x)} :: Standing(x) == Remaining(old(Standing(x)), doomed * Elements(seen))
    {
      hide Select, Chain, Link, Remaining, Match, Facts, Same, Numbered, Elements, Hold, Apart, Distinct, First;
      seen := [];
      var p: int;
      ghost var at: nat;
      p, at := Find(q);
      forall x
        ensures Remaining(Standing(x), {}) == Standing(x)
      {
        RemainingAll(Standing(x));
      }
      ghost var gone: set<nat> := {};
      while p != NONE
        invariant Valid() && at <= |live| && p == At(live, at) && (p != NONE ==> Match(pool[p], q))
        invariant seen + Select(pool[..], live[at..], q) == old(Standing(q))
        invariant gone == doomed * Elements(seen)
        invariant forall x {:trigger Standing(x)} :: Standing(x) == Remaining(old(Standing(x)), gone)
        decreases |Select(pool[..], live[at..], q)|
      {
        Heads(pool[..], live, at, q);
        seen := seen + [p];
        if p in doomed {
          forall x
            ensures Remaining(Remaining(old(Standing(x)), gone), {p}) == Remaining(old(Standing(x)), gone + {p})
          {
            RemainingTwice(old(Standing(x)), gone, {p});
          }
          Strike(p, q, at);
          gone := gone + {p};
        }
        p, at := Next(p, q, at);
      }
      Heads(pool[..], live, at, q);
    }

    /** The loop that withdraws all matching offers: each time the first one. */
    method Withdraw(q: Query) returns (count: nat)
      requires Valid()
      modifies this`list, this`free, this`tail, this`avail, this`valid, this`live, this`spare, pool
      ensures Valid() && count == |old(Standing(q))| && Standing(q) == []
      ensures forall x {:trigger Standing(x)} :: Standing(x) == Remaining(old(Standing(x)), Elements(old(Standing(q))))
    {
      hide Select, Chain, Link, Remaining, Match, Facts, Same, Numbered;
      count := 0;
      var p: int;
      ghost var at: nat;
      p, at := Find(q);
      forall x
        ensures Remaining(Standing(x), {}) == Standing(x)
      {
        RemainingAll(Standing(x));
      }
      ghost var gone: set<nat> := {};
      while p != NONE
        invariant Valid() && at <= |live| && p == At(live, at) && (p != NONE ==> Match(pool[p], q))
        invariant Reached(p, at, 0, q) && p == First(Standing(q))
        invariant count <= |old(Standing(q))| && Standing(q) == old(Standing(q))[count..]
        invariant gone == Elements(old(Standing(q))[..count])
        invariant forall x {:trigger Standing(x)} :: Standing(x) == Remaining(old(Standing(x)), gone)
        decreases |old(Standing(q))| - count
      {
        forall x
          ensures Remaining(Remaining(old(Standing(x)), gone), {p}) == Remaining(old(Standing(x)), gone + {p})
        {
          RemainingTwice(old(Standing(x)), gone, {p});
        }
        Strike(p, q, at);
        gone := gone + {p};
        assert old(Standing(q))[..count + 1] == old(Standing(q))[..count] + [old(Standing(q))[count]];
        count := count + 1;
        p, at := Find(q);
      }
      assert old(Standing(q))[..count] == old(Standing(q));
    }
  }
}
