/**
 * What round robin guarantees: coverage of one select, ticket use, and weighted fairness of many
 * (routini/src/load_balancing/strategy/utils.rs:88-155, round_robin.rs:25-35).
 */
module RoundRobin {
  import opened Core
  import opened Selection

  // ---------------------------------------------------------------------------------------------
  // Deduplication, over any inner iterator.

  /** First occurrences have pairwise distinct keys. */
  lemma FirstSeenDistinct(s: Stream, i: nat, j: nat)
    requires i < j && FirstSeen(s, i) && FirstSeen(s, j)
    ensures At(s, i).value.key != At(s, j).value.key
  {
    KeysSeenGrow(s, i + 1, j);
  }

  lemma {:induction false} KeyAt(s: Stream, n: nat, key: Key) returns (f: nat)
    requires key in KeysSeen(s, n)
    ensures f < n && FirstSeen(s, f) && At(s, f).value.key == key
  {
    if key in KeysSeen(s, n - 1) {
      f := KeyAt(s, n - 1, key);
    } else {
      f := n - 1;
    }
  }

  /** Every item has a first occurrence of its key at or before it. */
  lemma {:induction false} HasFirstSeen(s: Stream, k: nat) returns (f: nat)
    requires At(s, k).Some?
    ensures f <= k && FirstSeen(s, f)
    ensures At(s, f).value.key == At(s, k).value.key
    decreases k
  {
    if FirstSeen(s, k) {
      f := k;
    } else {
      f := KeyAt(s, k, At(s, k).value.key);
    }
  }

  // ---------------------------------------------------------------------------------------------
  // Coverage.

  /** Backend `b` is among the items a budget of `max` looks at. */
  ghost predicate LookedAt(s: Stream, max: nat, b: Backend) {
    exists k :: 0 <= k < Looked(s, max) && At(s, k) == Some(b)
  }

  /** A budget of `max` looks at every backend, and at nothing else. */
  ghost predicate Covers(s: Stream, max: nat, backends: seq<Backend>) {
    && (forall i | 0 <= i < |backends| :: LookedAt(s, max, backends[i]))
    && (forall k | 0 <= k < Looked(s, max) :: At(s, k).Some? && At(s, k).value in backends)
  }

  /** A select over a covering budget returns an accepted backend exactly when there is one. */
  lemma CoveringSelectDecides(s: Stream, max: nat, accept: Backend -> bool,
                              r: Option<Backend>, k: nat, backends: seq<Backend>)
    requires Ordered(backends) && KeysDiffer(backends) && Covers(s, max, backends)
    requires Selected(s, max, accept, r, k)
    ensures r.Some? <==> exists b :: b in backends && accept(b)
    ensures r.Some? ==> r.value in backends && accept(r.value)
  {
    OrderedIdsUnique(backends);
    forall b | b in backends && accept(b)
      ensures r.Some?
    {
      var i :| 0 <= i < |backends| && backends[i] == b;
      assert LookedAt(s, max, backends[i]);
      var p :| 0 <= p < Looked(s, max) && At(s, p) == Some(backends[i]);
      var f := HasFirstSeen(s, p);
      var j :| 0 <= j < |backends| && backends[j] == At(s, f).value;
      assert Eligible(s, accept, f);
    }
  }

  lemma {:induction false} TicketsNeverEnd(w: WeightedSelector, start: nat, n: nat)
    requires w.Selectable() && w.backends != []
    ensures Looked(Tickets(w, start), n) == n
  {
    if n > 0 {
      TicketsNeverEnd(w, start, n - 1);
    }
  }

  /** Among `n` successive numbers, one has a given remainder modulo `n`. */
  lemma {:induction false} ModHit(t: nat, n: nat, i: nat) returns (k: nat)
    requires i < n
    ensures 1 <= k <= n && Mod(t + k, n) == i
    decreases t
  {
    if t >= n {
      k := ModHit(t - n, n, i);
    } else {
      k := if i > t then i - t else i - t + n;
    }
  }

  /** Numbers less than `n` apart have different remainders. */
  lemma {:induction false} ModDiffers(t: nat, n: nat, k: nat)
    requires 0 < k < n
    ensures Mod(t + k, n) != Mod(t, n)
    decreases t
  {
    if t >= n {
      ModDiffers(t - n, n, k);
    }
  }

  /** A window of the fallback list that starts right after ticket `t` and does not wrap. */
  ghost predicate NoWrap(start: nat, n: nat) { Wrap(start) + n < WORD }

  lemma {:induction false} WrapAdds(start: nat, k: nat)
    ensures Wrap(start) + k < WORD ==> Wrap(start + k) == Wrap(start) + k
    ensures WORD <= Wrap(start) + k < 2 * WORD ==> Wrap(start + k) == Wrap(start) + k - WORD
    decreases start
  {
    if start >= WORD {
      WrapAdds(start - WORD, k);
    } else if start + k >= WORD {
      assert Mod(start + k, WORD) == Mod(start + k - WORD, WORD);
    }
  }

  /** Without a wrap the fallbacks of `n` successive tickets are all `n` backends. */
  lemma FallbackHit(w: WeightedSelector, start: nat, i: nat) returns (k: nat)
    requires w.Selectable() && i < |w.backends| && NoWrap(start, |w.backends|)
    ensures 1 <= k <= |w.backends| && At(Tickets(w, start), k) == Some(w.backends[i])
  {
    k := ModHit(Wrap(start), |w.backends|, i);
    WrapAdds(start, k);
  }

  /**
   * With a budget of twice the number of backends the counter may even wrap on the way: either the
   * first or the last `n` fallbacks are undisturbed.
   */
  lemma FallbackHitAcrossWrap(w: WeightedSelector, start: nat, i: nat) returns (k: nat)
    requires w.Selectable() && i < |w.backends| <= 0xFFFF
    ensures 1 <= k < 2 * |w.backends| && At(Tickets(w, start), k) == Some(w.backends[i])
  {
    var n := |w.backends|;
    if NoWrap(start, n) {
      k := FallbackHit(w, start, i);
    } else {
      k := WORD - Wrap(start) + i;
      WrapAdds(start, k);
    }
  }

  lemma ItemsAreBackends(w: WeightedSelector, start: nat, k: nat)
    requires w.Selectable() && w.backends != []
    ensures At(Tickets(w, start), k).Some? && At(Tickets(w, start), k).value in w.backends
  {
  }

  lemma OnlyBackendsLookedAt(w: WeightedSelector, start: nat, max: nat)
    requires w.Selectable() && w.backends != []
    ensures forall k | 0 <= k < Looked(Tickets(w, start), max) ::
              At(Tickets(w, start), k).Some? && At(Tickets(w, start), k).value in w.backends
  {
    forall k | 0 <= k < Looked(Tickets(w, start), max)
      ensures At(Tickets(w, start), k).Some? && At(Tickets(w, start), k).value in w.backends
    {
      ItemsAreBackends(w, start, k);
    }
  }

  /**
   * Coverage. An undisturbed select over a non-empty round-robin selector looks at every backend,
   * whatever the counter, if its budget is at least
   *  - n + 1 and the counter does not wrap within the next n tickets, or
   *  - 2 n, wrap or not.
   */
  lemma RoundRobinCovers(w: WeightedSelector, start: nat, max: nat)
    requires w.Selectable() && 0 < |w.backends| <= 0xFFFF
    requires (max > |w.backends| && NoWrap(start, |w.backends|)) || max >= 2 * |w.backends|
    ensures Covers(Tickets(w, start), max, w.backends)
  {
    TicketsNeverEnd(w, start, max);
    forall i | 0 <= i < |w.backends|
      ensures LookedAt(Tickets(w, start), max, w.backends[i])
    {
      var k: nat;
      if max >= 2 * |w.backends| {
        k := FallbackHitAcrossWrap(w, start, i);
      } else {
        k := FallbackHit(w, start, i);
      }
      assert 0 <= k < max && At(Tickets(w, start), k) == Some(w.backends[i]);
    }
    OnlyBackendsLookedAt(w, start, max);
  }

  // ---------------------------------------------------------------------------------------------
  // Coverage across a counter wrap, exactly.

  lemma {:induction false} ModBack(x: nat, d: nat, n: nat)
    requires 0 < d <= n && d <= x
    ensures Mod(x - d, n) == if d <= Mod(x, n) then Mod(x, n) - d else Mod(x, n) - d + n
    decreases x
  {
    if x >= n + d {
      ModBack(x - n, d, n);
    }
  }

  lemma ModAtMost(t: nat, n: nat)
    requires n > 0
    ensures Mod(t, n) <= t
  {
  }

  /** The fallback of call `k` is the backend at position `i`. */
  ghost predicate FallsOn(n: nat, start: nat, k: nat, i: nat)
    requires n > 0
  {
    Mod(Wrap(start + k), n) == i
  }

  /** Fallbacks drawn before the counter wraps. */
  function BeforeWrap(start: nat): nat { WORD - 1 - Wrap(start) }

  /**
   * Across a wrap, `max - 1` fallbacks of `n` backends miss the positions from `MissedFrom` to
   * `MissedTo`: those before the wrap end at the remainder of 2^64, those after it start at 0.
   */
  function MissedFrom(n: nat, start: nat, max: nat): nat
    requires n > 0 && max > BeforeWrap(start)
  {
    var after := max - 1 - BeforeWrap(start);
    if after < Mod(WORD, n) then Mod(WORD, n) else after
  }

  function MissedTo(n: nat, start: nat): nat
    requires n > BeforeWrap(start)
  {
    var end := n - BeforeWrap(start) + Mod(WORD, n);
    if end < n then end else n
  }

  /** The position of a fallback drawn before, respectively after, the wrap. */
  lemma FallbackAcrossWrap(n: nat, start: nat, k: nat)
    requires 0 < n <= 0xFFFF && BeforeWrap(start) < n && 0 < k < 2 * n
    ensures var a, m := BeforeWrap(start), Mod(WORD, n);
            if k > a then FallsOn(n, start, k, Mod(k - a - 1, n))
            else FallsOn(n, start, k, if a + 1 - k <= m then m - (a + 1 - k) else m - (a + 1 - k) + n)
  {
    var a := BeforeWrap(start);
    WrapAdds(start, k);
    if k <= a { ModBack(WORD, a + 1 - k, n); }
  }

  lemma MissedPosition(n: nat, start: nat, max: nat, i: nat, k: nat)
    requires 0 < n <= 0xFFFF && BeforeWrap(start) < n <= max < 2 * n
    requires MissedFrom(n, start, max) <= i < MissedTo(n, start) && 0 < k < max
    ensures !FallsOn(n, start, k, i)
  {
    FallbackAcrossWrap(n, start, k);
    if k > BeforeWrap(start) { ModAtMost(k - BeforeWrap(start) - 1, n); }
  }

  lemma HitPosition(n: nat, start: nat, max: nat, i: nat) returns (k: nat)
    requires 0 < n <= 0xFFFF && BeforeWrap(start) < n <= max < 2 * n
    requires i < n && !(MissedFrom(n, start, max) <= i < MissedTo(n, start))
    ensures 0 < k < max && FallsOn(n, start, k, i)
  {
    var a, m := BeforeWrap(start), Mod(WORD, n);
    k := if i < max - 1 - a then a + 1 + i else if i < m then a + 1 - (m - i) else a + 1 - (m + n - i);
    FallbackAcrossWrap(n, start, k);
  }

  function Min(x: nat, y: nat): nat { if x < y then x else y }

  /** How many positions n fallbacks miss, in terms of the remainder and of the tickets left before the wrap. */
  lemma MissedCount(n: nat, start: nat)
    requires 0 < n && BeforeWrap(start) < n
    ensures var a, m := BeforeWrap(start), Mod(WORD, n);
            var missed := MissedTo(n, start) - MissedFrom(n, start, n + 1);
            if m == 0 then missed <= 0
            else missed == Min(Min(m, n - m), Min(a, n - a))
  {
  }

  lemma MissedAreSeenFirst(w: WeightedSelector, start: nat, max: nat)
    requires w.Selectable() && 0 < |w.backends| <= 0xFFFF && BeforeWrap(start) < |w.backends| <= max < 2 * |w.backends|
    requires forall i | MissedFrom(|w.backends|, start, max) <= i < MissedTo(|w.backends|, start) ::
               w.Weighted(Wrap(start)) == w.backends[i]
    ensures Covers(Tickets(w, start), max, w.backends)
  {
    var n := |w.backends|;
    TicketsNeverEnd(w, start, max);
    forall i | 0 <= i < n
      ensures LookedAt(Tickets(w, start), max, w.backends[i])
    {
      var k := 0;
      if !(MissedFrom(n, start, max) <= i < MissedTo(n, start)) {
        k := HitPosition(n, start, max, i);
      }
      assert 0 <= k < max && At(Tickets(w, start), k) == Some(w.backends[i]);
    }
    OnlyBackendsLookedAt(w, start, max);
  }

  lemma OnlyFirstSees(w: WeightedSelector, start: nat, max: nat, i: nat)
    requires w.Selectable() && 0 < |w.backends| <= 0xFFFF && BeforeWrap(start) < |w.backends| <= max < 2 * |w.backends|
    requires Ordered(w.backends) && Covers(Tickets(w, start), max, w.backends)
    requires MissedFrom(|w.backends|, start, max) <= i < MissedTo(|w.backends|, start)
    ensures w.Weighted(Wrap(start)) == w.backends[i]
  {
    var n := |w.backends|;
    TicketsNeverEnd(w, start, max);
    assert LookedAt(Tickets(w, start), max, w.backends[i]);
    var k :| 0 <= k < max && At(Tickets(w, start), k) == Some(w.backends[i]);
    OrderedIdsUnique(w.backends);
    assert k > 0 ==> FallsOn(n, start, k, i);
    if k > 0 { MissedPosition(n, start, max, i, k); }
  }

  /** Across a wrap a budget covers if the fallbacks miss no position, or one to which the first ticket goes. */
  ghost predicate SeesAllAcrossWrap(w: WeightedSelector, start: nat, max: nat)
    requires w.Selectable() && BeforeWrap(start) < |w.backends| <= max
  {
    var lo, hi := MissedFrom(|w.backends|, start, max), MissedTo(|w.backends|, start);
    hi <= lo || (hi == lo + 1 && w.Weighted(Wrap(start)) == w.backends[lo])
  }

  lemma AcrossWrapCoversIff(w: WeightedSelector, start: nat, max: nat)
    requires w.Selectable() && 0 < |w.backends| <= 0xFFFF && BeforeWrap(start) < |w.backends| <= max && Ordered(w.backends)
    ensures Covers(Tickets(w, start), max, w.backends) <==> SeesAllAcrossWrap(w, start, max)
  {
    var n := |w.backends|;
    if max >= 2 * n {
      RoundRobinCovers(w, start, max);
    } else {
      var lo, hi := MissedFrom(n, start, max), MissedTo(n, start);
      if SeesAllAcrossWrap(w, start, max) {
        MissedAreSeenFirst(w, start, max);
      }
      if lo < hi && Covers(Tickets(w, start), max, w.backends) {
        OrderedIdsUnique(w.backends);
        assert lo + 1 < n ==> w.backends[lo] != w.backends[lo + 1];
        OnlyFirstSees(w, start, max, lo);
        if lo + 1 < hi { OnlyFirstSees(w, start, max, lo + 1); }
      }
    }
  }

  // ---------------------------------------------------------------------------------------------
  // A budget of n, and unit weights.

  lemma LaterFallbackDiffers(w: WeightedSelector, start: nat, k: nat)
    requires w.Selectable() && 0 < k < |w.backends| && NoWrap(start, |w.backends|) && Ordered(w.backends)
    ensures At(Tickets(w, start), k) != Some(w.Fallback(Wrap(start)))
  {
    var n, t := |w.backends|, Wrap(start);
    WrapAdds(start, k);
    ModDiffers(t, n, k);
    var i, j := Mod(t, n), Mod(t + k, n);
    OrderedIdsUnique(w.backends);
    assert w.backends[i].id != w.backends[j].id;
  }

  /** The first ticket's own place is not among the first n - 1 fallbacks. */
  lemma OwnPlaceIsFirst(w: WeightedSelector, start: nat)
    requires w.Selectable() && w.backends != [] && NoWrap(start, |w.backends|) && Ordered(w.backends)
    requires Covers(Tickets(w, start), |w.backends|, w.backends)
    ensures w.Weighted(Wrap(start)) == w.Fallback(Wrap(start))
  {
    var n, t := |w.backends|, Wrap(start);
    var i := Mod(t, n);
    TicketsNeverEnd(w, start, n);
    assert LookedAt(Tickets(w, start), n, w.backends[i]);
    var k :| 0 <= k < n && At(Tickets(w, start), k) == Some(w.backends[i]);
    if k > 0 {
      LaterFallbackDiffers(w, start, k);
    }
  }

  lemma EarlyHit(w: WeightedSelector, start: nat, i: nat) returns (k: nat)
    requires w.Selectable() && i < |w.backends| && NoWrap(start, |w.backends|)
    requires w.Weighted(Wrap(start)) == w.Fallback(Wrap(start))
    ensures k < |w.backends| && At(Tickets(w, start), k) == Some(w.backends[i])
  {
    k := FallbackHit(w, start, i);
    if k == |w.backends| {
      WrapAdds(start, k);
      k := 0;
    }
  }

  /**
   * A budget of exactly n: the n - 1 fallbacks miss the backend the first ticket itself points at,
   * so the budget covers exactly when the weighted list sends the first ticket there.
   */
  lemma BudgetOfNCoversIff(w: WeightedSelector, start: nat)
    requires w.Selectable() && w.backends != [] && NoWrap(start, |w.backends|)
    requires Ordered(w.backends)
    ensures Covers(Tickets(w, start), |w.backends|, w.backends) <==>
              w.Weighted(Wrap(start)) == w.Fallback(Wrap(start))
  {
    if Covers(Tickets(w, start), |w.backends|, w.backends) {
      OwnPlaceIsFirst(w, start);
    }
    if w.Weighted(Wrap(start)) == w.Fallback(Wrap(start)) {
      TicketsNeverEnd(w, start, |w.backends|);
      forall i | 0 <= i < |w.backends|
        ensures LookedAt(Tickets(w, start), |w.backends|, w.backends[i])
      {
        var k := EarlyHit(w, start, i);
      }
      OnlyBackendsLookedAt(w, start, |w.backends|);
    }
  }

  /** The items among the first `n`. */
  ghost function ItemsSeen(s: Stream, n: nat): set<Backend> {
    if n == 0 then {}
    else ItemsSeen(s, n - 1) + if At(s, n - 1).Some? then {At(s, n - 1).value} else {}
  }

  lemma {:induction false} ItemSeen(s: Stream, n: nat, k: nat)
    requires k < n && At(s, k).Some?
    ensures At(s, k).value in ItemsSeen(s, n)
  {
    if k < n - 1 { ItemSeen(s, n - 1, k); }
  }

  lemma {:induction false} AtMostBudgetSeen(s: Stream, n: nat)
    ensures |ItemsSeen(s, n)| <= n
  {
    if n > 0 { AtMostBudgetSeen(s, n - 1); }
  }

  lemma {:induction false} AsManyAsListed(backends: seq<Backend>, n: nat, all: set<Backend>)
    requires Ordered(backends) && n <= |backends| && forall i | 0 <= i < n :: backends[i] in all
    ensures n <= |all|
  {
    if n > 0 {
      OrderedIdsUnique(backends);
      AsManyAsListed(backends, n - 1, all - {backends[n - 1]});
    }
  }

  /** No budget below n sees n backends. */
  lemma CoveringNeedsN(w: WeightedSelector, start: nat, max: nat)
    requires Ordered(w.backends) && Covers(Tickets(w, start), max, w.backends)
    ensures max >= |w.backends|
  {
    var s := Tickets(w, start);
    forall i | 0 <= i < |w.backends| ensures w.backends[i] in ItemsSeen(s, max) {
      assert LookedAt(s, max, w.backends[i]);
      var k :| 0 <= k < Looked(s, max) && At(s, k) == Some(w.backends[i]);
      ItemSeen(s, max, k);
    }
    AtMostBudgetSeen(s, max);
    AsManyAsListed(w.backends, |w.backends|, ItemsSeen(s, max));
  }

  /**
   * Exactly when a budget sees every backend, for every budget and every counter value. Without a
   * wrap within n tickets: more than n always, and n if the weighted list sends the first ticket to
   * the backend that the plain list has in its place. Across a wrap: from n on, if the fallbacks miss
   * no position, or one and the weighted list sends the first ticket there.
   */
  lemma BudgetCoversIff(w: WeightedSelector, start: nat, max: nat)
    requires w.Selectable() && 0 < |w.backends| <= 0xFFFF && Ordered(w.backends)
    ensures Covers(Tickets(w, start), max, w.backends) <==>
              && max >= |w.backends|
              && if NoWrap(start, |w.backends|)
                 then max > |w.backends| || w.Weighted(Wrap(start)) == w.Fallback(Wrap(start))
                 else SeesAllAcrossWrap(w, start, max)
  {
    if max < |w.backends| {
      if Covers(Tickets(w, start), max, w.backends) { CoveringNeedsN(w, start, max); }
    } else if !NoWrap(start, |w.backends|) {
      AcrossWrapCoversIff(w, start, max);
    } else if max > |w.backends| {
      RoundRobinCovers(w, start, max);
    } else {
      BudgetOfNCoversIff(w, start);
    }
  }

  lemma {:induction false} UnitTotal(s: seq<Backend>)
    requires forall i | 0 <= i < |s| :: s[i].id.weight == 1
    ensures TotalWeight(s) == |s|
  {
    if s != [] {
      UnitTotal(s[..|s| - 1]);
    }
  }

  lemma TwiceCounted(s: seq<U16>, j: nat, k: nat)
    requires j < k < |s| && s[j] == s[k]
    ensures multiset(s)[s[j]] >= 2
  {
    assert s == s[..k] + [s[k]] + s[k + 1..];
    assert s[..k][j] == s[j];
    assert s[j] in s[..k];
  }

  lemma {:induction false} AtLeastIndex(s: seq<U16>, k: nat)
    requires k < |s| && forall i, j | 0 <= i < j < |s| :: s[i] < s[j]
    ensures s[k] >= k
  {
    if k > 0 {
      AtLeastIndex(s, k - 1);
    }
  }

  /** A strictly increasing list of `n` numbers below `n` is 0, 1, ..., n - 1. */
  lemma {:induction false} StrictlyIncreasingBelow(s: seq<U16>, n: nat)
    requires |s| == n && (forall k | 0 <= k < n :: s[k] < n)
    requires forall j, k | 0 <= j < k < n :: s[j] < s[k]
    ensures forall k | 0 <= k < n :: s[k] == k
  {
    if n > 0 {
      AtLeastIndex(s, n - 1);
      StrictlyIncreasingBelow(s[..n - 1], n - 1);
    }
  }

  lemma UnitWeightedIsIdentity(w: WeightedSelector)
    requires IsWeighted(w.backends, w.weighted) && |w.weighted| == |w.backends| <= 0xFFFF
    requires forall i | 0 <= i < |w.backends| :: w.backends[i].id.weight == 1
    ensures forall k | 0 <= k < |w.weighted| :: w.weighted[k] == k
  {
    var s := w.weighted;
    forall j, k | 0 <= j < k < |s|
      ensures s[j] < s[k]
    {
      if s[j] == s[k] {
        TwiceCounted(s, j, k);
      }
    }
    StrictlyIncreasingBelow(s, |s|);
  }

  /** When all weights are one the weighted list is the list of backends, so n items suffice. */
  lemma UnitWeightsCover(w: WeightedSelector, start: nat)
    requires IsWeighted(w.backends, w.weighted) && w.backends != [] && NoWrap(start, |w.backends|)
    requires Ordered(w.backends) && forall i | 0 <= i < |w.backends| :: w.backends[i].id.weight == 1
    requires |w.backends| <= 0xFFFF
    ensures w.Selectable() && Covers(Tickets(w, start), |w.backends|, w.backends)
  {
    UnitTotal(w.backends);
    UnitWeightedIsIdentity(w);
    BudgetOfNCoversIff(w, start);
  }

  /** Round robin returns an accepted backend exactly when one exists, from any counter value. */
  lemma RoundRobinSelectDecides(w: WeightedSelector, start: nat, max: nat,
                                accept: Backend -> bool, r: Option<Backend>, k: nat)
    requires w.Selectable() && 0 < |w.backends| <= 0xFFFF
    requires Ordered(w.backends) && KeysDiffer(w.backends)
    requires (max > |w.backends| && NoWrap(start, |w.backends|)) || max >= 2 * |w.backends|
    requires Selected(Tickets(w, start), max, accept, r, k)
    ensures r.Some? <==> exists b :: b in w.backends && accept(b)
    ensures r.None? ==> k == max
  {
    RoundRobinCovers(w, start, max);
    CoveringSelectDecides(Tickets(w, start), max, accept, r, k, w.backends);
    TicketsNeverEnd(w, start, max);
  }

  function Three(): seq<Backend> {
    [Backend(Id(0, 2), 0, map[], 0), Backend(Id(1, 1), 1, map[], 1), Backend(Id(2, 1), 2, map[], 2)]
  }

  lemma ThreeAreWeighted()
    ensures IsWeighted(Three(), [0, 0, 1, 2]) && Ordered(Three())
  {
    var three := Three();
    var one, two := [three[0]], [three[0], three[1]];
    assert three[..2] == two && two[..1] == one && one[..0] == [];
    assert TotalWeight(one) == 2;
    assert TotalWeight(two) == 3;
  }

  /**
   * Across a wrap a budget of n + 1 need not suffice: with weights 2, 1, 1 and two tickets left
   * before the wrap the four items looked at never include the third backend.
   */
  lemma WrapDefeatsBudgetOfNPlusOne(algorithm: RoundRobinAlgo)
    ensures var w := WeightedSelector(Three(), [0, 0, 1, 2], algorithm);
            && IsWeighted(w.backends, w.weighted) && w.Selectable() && Ordered(w.backends)
            && !Covers(Tickets(w, WORD - 2), |w.backends| + 1, w.backends)
  {
    ThreeAreWeighted();
    var w := WeightedSelector(Three(), [0, 0, 1, 2], algorithm);
    var s := Tickets(w, WORD - 2);
    TicketsNeverEnd(w, WORD - 2, 4);
    ModIsRemainder(WORD - 2, 4);
    ModIsRemainder(WORD - 1, 3);
    assert Mod(0, 3) == 0 && Mod(1, 3) == 1;
    WrapAdds(WORD - 2, 2);
    WrapAdds(WORD - 2, 3);
    assert At(s, 0) == Some(w.backends[1]);
    assert At(s, 1) == Some(w.backends[0]);
    assert At(s, 2) == Some(w.backends[0]);
    assert At(s, 3) == Some(w.backends[1]);
    assert !LookedAt(s, 4, w.backends[2]);
  }

  // ---------------------------------------------------------------------------------------------
  // Fairness of first picks.

  /** How many iterators, one started with each of the given tickets, yield `x` first. */
  ghost function FirstPicks(w: WeightedSelector, tickets: seq<nat>, x: Backend): nat {
    if tickets == [] then 0
    else
      FirstPicks(w, tickets[..|tickets| - 1], x)
      + (if At(Tickets(w, tickets[|tickets| - 1]), 0) == Some(x) then 1 else 0)
  }

  /** `m` successive tickets from `t` on. */
  function Range(t: nat, m: nat): (r: seq<nat>)
    ensures |r| == m
  {
    if m == 0 then [] else Range(t, m - 1) + [t + m - 1]
  }

  lemma {:induction false} FirstPicksAppend(w: WeightedSelector, a: seq<nat>, b: seq<nat>, x: Backend)
    ensures FirstPicks(w, a + b, x) == FirstPicks(w, a, x) + FirstPicks(w, b, x)
    decreases |b|
  {
    if b == [] {
      assert a + b == a;
    } else {
      var front := b[..|b| - 1];
      FirstPicksAppend(w, a, front, x);
      assert (a + b)[..|a + b| - 1] == a + front;
    }
  }

  lemma RemovedEqually(a: seq<nat>, b: seq<nat>, k: nat)
    requires a != [] && k < |b| && b[k] == a[0] && multiset(a) == multiset(b)
    ensures multiset(a[1..]) == multiset(b[..k] + b[k + 1..])
  {
    assert a == [a[0]] + a[1..];
    assert b == b[..k] + [b[k]] + b[k + 1..];
    assert multiset(a[1..]) == multiset(a) - multiset{a[0]};
    assert multiset(b[..k] + b[k + 1..]) == multiset(b) - multiset{b[k]};
  }

  lemma SameWith(w: WeightedSelector, y: nat, rest: seq<nat>, left: seq<nat>, right: seq<nat>, x: Backend)
    requires FirstPicks(w, rest, x) == FirstPicks(w, left + right, x)
    ensures FirstPicks(w, [y] + rest, x) == FirstPicks(w, left + [y] + right, x)
  {
    FirstPicksAppend(w, [y], rest, x);
    FirstPicksAppend(w, left, right, x);
    FirstPicksAppend(w, left + [y], right, x);
    FirstPicksAppend(w, left, [y], x);
  }

  /** The order in which threads use their tickets does not matter. */
  lemma {:induction false} FirstPicksOfPermutation(w: WeightedSelector, a: seq<nat>, b: seq<nat>, x: Backend)
    requires multiset(a) == multiset(b)
    ensures FirstPicks(w, a, x) == FirstPicks(w, b, x)
    decreases |a|
  {
    if a == [] {
      assert |multiset(b)| == 0;
    } else {
      assert a[0] in multiset(b);
      var k :| 0 <= k < |b| && b[k] == a[0];
      RemovedEqually(a, b, k);
      FirstPicksOfPermutation(w, a[1..], b[..k] + b[k + 1..], x);
      assert a == [a[0]] + a[1..] && b == b[..k] + [a[0]] + b[k + 1..];
      SameWith(w, a[0], a[1..], b[..k], b[k + 1..], x);
    }
  }

  /** Picks of index `i` among `m` successive tickets from `t` on. */
  ghost function RangePicks(weighted: seq<U16>, t: nat, m: nat, i: U16): (picks: nat)
    requires weighted != []
    ensures picks <= m
  {
    if m == 0 then 0
    else RangePicks(weighted, t, m - 1, i) + (if weighted[Mod(t + m - 1, |weighted|)] == i then 1 else 0)
  }

  /** What an iterator yields first is the backend that its ticket's place in the weighted list names. */
  lemma FirstPickOf(w: WeightedSelector, t: nat, i: U16)
    requires w.Selectable() && Ordered(w.backends) && i < |w.backends| && t < WORD
    ensures At(Tickets(w, t), 0) == Some(w.backends[i]) <==> w.weighted[Mod(t, |w.weighted|)] == i
  {
    OrderedIdsUnique(w.backends);
    assert At(Tickets(w, t), 0) == Some(w.backends[w.weighted[Mod(t, |w.weighted|)]]);
  }

  lemma {:induction false} FirstPicksOfRange(w: WeightedSelector, t: nat, m: nat, i: U16)
    requires w.Selectable() && Ordered(w.backends) && i < |w.backends| && t + m <= WORD
    ensures FirstPicks(w, Range(t, m), w.backends[i]) == RangePicks(w.weighted, t, m, i)
  {
    if m > 0 {
      FirstPicksOfRange(w, t, m - 1, i);
      FirstPickOf(w, t + m - 1, i);
      assert Range(t, m)[..m - 1] == Range(t, m - 1);
    }
  }

  lemma {:induction false} RangeSplit(weighted: seq<U16>, t: nat, m: nat, n: nat, i: U16)
    requires weighted != []
    ensures RangePicks(weighted, t, m + n, i) == RangePicks(weighted, t, m, i) + RangePicks(weighted, t + m, n, i)
  {
    if n > 0 {
      RangeSplit(weighted, t, m, n - 1, i);
    }
  }

  lemma {:induction false} PicksOfPrefix(weighted: seq<U16>, n: nat, i: U16)
    requires weighted != [] && n <= |weighted|
    ensures RangePicks(weighted, 0, n, i) == multiset(weighted[..n])[i]
  {
    if n > 0 {
      PicksOfPrefix(weighted, n - 1, i);
      assert weighted[..n] == weighted[..n - 1] + [weighted[n - 1]];
    }
  }

  /** One full round, from any ticket, gives every backend exactly its weight. */
  lemma {:induction false} FullRound(weighted: seq<U16>, t: nat, i: U16)
    requires weighted != []
    ensures RangePicks(weighted, t, |weighted|, i) == multiset(weighted)[i]
  {
    var n := |weighted|;
    if t == 0 {
      PicksOfPrefix(weighted, n, i);
      assert weighted[..n] == weighted;
    } else {
      FullRound(weighted, t - 1, i);
      RangeSplit(weighted, t - 1, 1, n, i);
      RangeSplit(weighted, t - 1, n, 1, i);
      assert Mod(t - 1 + n, n) == Mod(t - 1, n);
      assert RangePicks(weighted, t - 1, 1, i) == RangePicks(weighted, t - 1 + n, 1, i);
    }
  }

  lemma OneMore(q: nat, n: nat)
    ensures (q + 1) * n == q * n + n
  {
  }

  lemma {:induction false} Rounds(weighted: seq<U16>, t: nat, q: nat, i: U16)
    requires weighted != []
    ensures RangePicks(weighted, t, q * |weighted|, i) == q * multiset(weighted)[i]
  {
    if q > 0 {
      var n := |weighted|;
      var before := (q - 1) * n;
      Rounds(weighted, t, q - 1, i);
      OneMore(q - 1, n);
      OneMore(q - 1, multiset(weighted)[i]);
      RangeSplit(weighted, t, before, n, i);
      FullRound(weighted, t + before, i);
    }
  }

  /** A part of a round gives a backend at most its weight. */
  lemma PartOfRound(weighted: seq<U16>, t: nat, r: nat, i: U16)
    requires weighted != [] && r <= |weighted|
    ensures RangePicks(weighted, t, r, i) <= multiset(weighted)[i]
  {
    RangeSplit(weighted, t, r, |weighted| - r, i);
    FullRound(weighted, t, i);
  }

  lemma AndRest(weighted: seq<U16>, t: nat, m: nat, r: nat, i: U16)
    requires weighted != [] && r <= |weighted|
    ensures var picks, full := RangePicks(weighted, t, m + r, i), RangePicks(weighted, t, m, i);
            full <= picks <= full + r && picks <= full + multiset(weighted)[i]
  {
    RangeSplit(weighted, t, m, r, i);
    PartOfRound(weighted, t + m, r, i);
  }

  lemma RoundsAndRest(weighted: seq<U16>, t: nat, q: nat, r: nat, i: U16)
    requires weighted != [] && r <= |weighted|
    ensures var picks, full := RangePicks(weighted, t, q * |weighted| + r, i), q * multiset(weighted)[i];
            full <= picks <= full + r && picks <= full + multiset(weighted)[i]
  {
    Rounds(weighted, t, q, i);
    AndRest(weighted, t, q * |weighted|, r, i);
  }

  lemma RoundsOfWeight(weighted: seq<U16>, t: nat, q: nat, r: nat, i: U16, m: nat, total: nat, weight: nat)
    requires weighted != [] && total == |weighted| && weight == multiset(weighted)[i] && r <= total
    requires m == q * total + r
    ensures var picks, full := RangePicks(weighted, t, m, i), q * weight;
            full <= picks <= full + r && picks <= full + weight
  {
    RoundsAndRest(weighted, t, q, r, i);
  }

  lemma PicksOfShare(w: WeightedSelector, t: nat, m: nat, tickets: seq<nat>, i: U16)
    requires w.Selectable() && Ordered(w.backends) && i < |w.backends| && t + m <= WORD
    requires multiset(tickets) == multiset(Range(t, m))
    ensures FirstPicks(w, tickets, w.backends[i]) == RangePicks(w.weighted, t, m, i)
  {
    FirstPicksOfPermutation(w, tickets, Range(t, m), w.backends[i]);
    FirstPicksOfRange(w, t, m, i);
  }

  /**
   * Weighted fairness. However threads share out m = q W + r successive tickets (r < W, the total
   * weight), if all of them are first picks and the counter does not wrap, backend `i` of weight w is
   * what q w of the iterators yield first, and at most min(w, r) more.
   */
  lemma WeightedFairness(w: WeightedSelector, t: nat, q: nat, r: nat, m: nat, tickets: seq<nat>, i: U16)
    requires IsWeighted(w.backends, w.weighted) && Ordered(w.backends) && i < |w.backends| <= 0xFFFF
    requires r < TotalWeight(w.backends) && m == q * TotalWeight(w.backends) + r && t + m <= WORD
    requires multiset(tickets) == multiset(Range(t, m))
    ensures var picks, full := FirstPicks(w, tickets, w.backends[i]), q * w.backends[i].id.weight;
            full <= picks <= full + r && picks <= full + w.backends[i].id.weight
  {
    PicksOfShare(w, t, m, tickets, i);
    RoundsOfWeight(w.weighted, t, q, r, i, m, TotalWeight(w.backends), w.backends[i].id.weight);
  }
}
