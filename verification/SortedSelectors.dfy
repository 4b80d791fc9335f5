/**
 * The metric-sorted selectors (routini/src/load_balancing/strategy/fewest_connections.rs and
 * fastest_server.rs). Both read one number per backend and sort by it: the active connections
 * (here embedded in the reals) or the average latency.
 */
module SortedSelectors {
  import opened Core
  import opened Selection

  /** The numbers read while a selector is built; none for a backend that does not track the metric. */
  type Snapshot = map<Id, real>

  /** Untracked backends sort as zero. */
  function Value(snapshot: Snapshot, b: Backend): real {
    if b.id in snapshot then snapshot[b.id] else 0.0
  }

  datatype Entry = Entry(backend: Backend, value: real)

  ghost predicate SortedEntries(s: seq<Entry>) {
    forall i, j | 0 <= i < j < |s| :: s[i].value <= s[j].value
  }

  method Swap(a: array<Entry>, j: nat)
    requires 0 < j < a.Length
    modifies a
    ensures a[..] == old(a[..])[j - 1 := old(a[j])][j := old(a[j - 1])]
    ensures multiset(a[..]) == multiset(old(a[..]))
  {
    a[j - 1], a[j] := a[j], a[j - 1];
  }

  /** Moves entry `i` down into the sorted entries before it. */
  method Insert(a: array<Entry>, i: nat)
    requires i < a.Length && SortedEntries(a[..i])
    modifies a
    ensures SortedEntries(a[..i + 1])
    ensures multiset(a[..]) == multiset(old(a[..]))
  {
    var j := i;
    while j > 0 && a[j].value < a[j - 1].value
      invariant 0 <= j <= i
      invariant multiset(a[..]) == multiset(old(a[..]))
      invariant forall k, l | 0 <= k < l <= i && l != j && k != j :: a[k].value <= a[l].value
      invariant forall l | j < l <= i :: a[j].value <= a[l].value
    {
      Swap(a, j);
      j := j - 1;
    }
  }

  /** `sort_unstable_by`: callers may only rely on sortedness and permutation, not on stability. */
  method SortUnstable(a: array<Entry>)
    modifies a
    ensures SortedEntries(a[..])
    ensures multiset(a[..]) == multiset(old(a[..]))
  {
    var i := 0;
    while i < a.Length
      invariant 0 <= i <= a.Length
      invariant SortedEntries(a[..i])
      invariant multiset(a[..]) == multiset(old(a[..]))
    {
      Insert(a, i);
      i := i + 1;
    }
    assert a[..i] == a[..];
  }

  ghost function Entries(backends: seq<Backend>, snapshot: Snapshot): seq<Entry> {
    seq(|backends|, i requires 0 <= i < |backends| => Entry(backends[i], Value(snapshot, backends[i])))
  }

  ghost function Chosen(entries: seq<Entry>): seq<Backend> {
    seq(|entries|, i requires 0 <= i < |entries| => entries[i].backend)
  }

  /** The array of a sorted selector: the backends, in some order of ascending metric. */
  ghost predicate IsSortedSelector(sorted: seq<Backend>, backends: seq<Backend>, snapshot: Snapshot) {
    && multiset(sorted) == multiset(backends)
    && (forall i, j | 0 <= i < j < |sorted| && sorted[i].id in snapshot && sorted[j].id in snapshot ::
          snapshot[sorted[i].id] <= snapshot[sorted[j].id])
    && (forall i, j | 0 <= i < j < |sorted| && sorted[i].id in snapshot && sorted[j].id !in snapshot ::
          snapshot[sorted[i].id] <= 0.0)
    && (forall i, j | 0 <= i < j < |sorted| && sorted[i].id !in snapshot && sorted[j].id in snapshot ::
          0.0 <= snapshot[sorted[j].id])
  }

  lemma SortedByValue(sorted: seq<Backend>, backends: seq<Backend>, snapshot: Snapshot)
    ensures IsSortedSelector(sorted, backends, snapshot) <==>
              && multiset(sorted) == multiset(backends)
              && forall i, j | 0 <= i < j < |sorted| :: Value(snapshot, sorted[i]) <= Value(snapshot, sorted[j])
  {
  }

  lemma ChosenTakeOut(b: seq<Entry>, k: nat)
    requires k < |b|
    ensures multiset(Chosen(b)) == multiset(Chosen(b[..k] + b[k + 1..])) + multiset{b[k].backend}
  {
    assert Chosen(b[..k] + b[k + 1..]) == Chosen(b[..k]) + Chosen(b[k + 1..]);
    assert Chosen(b) == Chosen(b[..k]) + [b[k].backend] + Chosen(b[k + 1..]);
  }

  lemma EqualWithoutFirst(a: seq<Entry>, b: seq<Entry>, k: nat)
    requires a != [] && k < |b| && b[k] == a[0] && multiset(a) == multiset(b)
    ensures multiset(a[1..]) == multiset(b[..k] + b[k + 1..])
  {
    assert a == [a[0]] + a[1..] && b == b[..k] + [b[k]] + b[k + 1..];
    assert multiset(a[1..]) == multiset(a) - multiset{a[0]};
    assert multiset(b[..k] + b[k + 1..]) == multiset(b) - multiset{b[k]};
  }

  lemma {:induction false} ChosenOfPermutation(a: seq<Entry>, b: seq<Entry>)
    requires multiset(a) == multiset(b)
    ensures multiset(Chosen(a)) == multiset(Chosen(b))
    decreases |a|
  {
    if a == [] {
      assert |multiset(b)| == 0;
    } else {
      assert a[0] in multiset(b);
      var k :| 0 <= k < |b| && b[k] == a[0];
      EqualWithoutFirst(a, b, k);
      ChosenOfPermutation(a[1..], b[..k] + b[k + 1..]);
      ChosenTakeOut(a, 0);
      ChosenTakeOut(b, k);
      assert a[..0] + a[1..] == a[1..];
    }
  }

  /** `build_backend_selector`: any array that is sorted by the snapshot may come out. */
  method Build(backends: seq<Backend>, snapshot: Snapshot) returns (sorted: seq<Backend>)
    ensures IsSortedSelector(sorted, backends, snapshot)
  {
    var withMetrics := new Entry[|backends|];
    var i := 0;
    while i < |backends|
      invariant 0 <= i <= |backends|
      invariant forall k | 0 <= k < i :: withMetrics[k] == Entry(backends[k], Value(snapshot, backends[k]))
    {
      var value := if backends[i].id in snapshot then snapshot[backends[i].id] else 0.0;
      withMetrics[i] := Entry(backends[i], value);
      i := i + 1;
    }
    ghost var entries := withMetrics[..];
    assert entries == Entries(backends, snapshot);
    SortUnstable(withMetrics);
    ghost var order := withMetrics[..];

    sorted := [];
    i := 0;
    while i < withMetrics.Length
      invariant 0 <= i <= withMetrics.Length == |order|
      invariant withMetrics[..] == order
      invariant sorted == Chosen(order[..i])
    {
      sorted := sorted + [withMetrics[i].backend];
      i := i + 1;
    }
    assert order[..i] == order;
    ChosenOfPermutation(entries, order);
    assert Chosen(entries) == backends;
    forall k | 0 <= k < |order|
      ensures order[k].value == Value(snapshot, sorted[k])
    {
      assert order[k] in multiset(entries);
    }
    SortedByValue(sorted, backends, snapshot);
  }

  // ---------------------------------------------------------------------------------------------
  // Selecting from a sorted array is choosing a minimum.

  lemma {:induction false} LookedListed(sorted: seq<Backend>, max: nat)
    ensures Looked(Listed(sorted), max) == if max < |sorted| then max else |sorted|
  {
    if max > 0 {
      LookedListed(sorted, max - 1);
    }
  }

  lemma OccursTwice(s: seq<Backend>, i: nat, j: nat)
    requires i < j < |s|
    ensures s[i] == s[j] ==> multiset(s)[s[i]] >= 2
  {
    assert s == s[..j] + [s[j]] + s[j + 1..];
    assert s[..j][i] == s[i];
    assert s[i] in s[..j];
  }

  lemma OccursOnce(backends: seq<Backend>, k: nat)
    requires Ordered(backends) && k < |backends|
    ensures multiset(backends)[backends[k]] == 1
  {
    OrderedIdsUnique(backends);
    assert backends == backends[..k] + [backends[k]] + backends[k + 1..];
    assert backends[k] !in backends[..k] && backends[k] !in backends[k + 1..];
  }

  /** A permutation of an ordered set lists every backend once, so no two entries share a key. */
  lemma SortedKeysDiffer(sorted: seq<Backend>, backends: seq<Backend>, i: nat, j: nat)
    requires Ordered(backends) && KeysDiffer(backends) && multiset(sorted) == multiset(backends)
    requires i < j < |sorted|
    ensures sorted[i].key != sorted[j].key
  {
    var x, y := sorted[i], sorted[j];
    assert x in multiset(sorted) && y in multiset(sorted);
    var k :| 0 <= k < |backends| && backends[k] == x;
    var l :| 0 <= l < |backends| && backends[l] == y;
    OccursOnce(backends, k);
    OccursTwice(sorted, i, j);
    OrderedIdsUnique(backends);
  }

  lemma {:induction false} ListedKeysSeen(sorted: seq<Backend>, n: nat, key: Key)
    requires n <= |sorted|
    ensures key in KeysSeen(Listed(sorted), n) <==> exists i :: 0 <= i < n && sorted[i].key == key
  {
    if n > 0 {
      ListedKeysSeen(sorted, n - 1, key);
      assert key == sorted[n - 1].key ==> exists i :: 0 <= i < n && sorted[i].key == key;
    }
  }

  lemma ListedFirstSeen(sorted: seq<Backend>, backends: seq<Backend>, j: nat)
    requires Ordered(backends) && KeysDiffer(backends) && multiset(sorted) == multiset(backends) && j < |sorted|
    ensures FirstSeen(Listed(sorted), j)
  {
    ListedKeysSeen(sorted, j, sorted[j].key);
    forall i | 0 <= i < j
      ensures sorted[i].key != sorted[j].key
    {
      SortedKeysDiffer(sorted, backends, i, j);
    }
  }

  /** A select over the array stops at its first accepted entry. */
  lemma SelectsFirstAccepted(sorted: seq<Backend>, backends: seq<Backend>, max: nat, accept: Backend -> bool,
                             r: Option<Backend>, k: nat)
    requires Ordered(backends) && KeysDiffer(backends) && multiset(sorted) == multiset(backends)
    requires Selected(Listed(sorted), max, accept, r, k)
    ensures var n := if max < |sorted| then max else |sorted|;
            && k <= n && (forall j | 0 <= j < k :: !Accepts(accept, sorted[j]))
            && (if r.None? then k == n else k < n && r.value == sorted[k] && Accepts(accept, r.value))
  {
    LookedListed(sorted, max);
    forall j | 0 <= j < k
      ensures !Accepts(accept, sorted[j])
    {
      ListedFirstSeen(sorted, backends, j);
      assert !Eligible(Listed(sorted), accept, j);
    }
  }

  lemma SortedSelectByValue(sorted: seq<Backend>, backends: seq<Backend>, snapshot: Snapshot,
                            max: nat, accept: Backend -> bool, r: Option<Backend>, k: nat)
    requires IsSortedSelector(sorted, backends, snapshot) && Ordered(backends) && KeysDiffer(backends)
    requires Selected(Listed(sorted), max, accept, r, k)
    ensures var reach := sorted[..if max < |sorted| then max else |sorted|];
            && (r.None? <==> forall b | b in reach :: !Accepts(accept, b))
            && (r.Some? ==>
                  && r.value in reach && Accepts(accept, r.value)
                  && forall b | b in reach && Accepts(accept, b) :: Value(snapshot, r.value) <= Value(snapshot, b))
            && (max >= |backends| ==> multiset(reach) == multiset(backends))
  {
    SortedByValue(sorted, backends, snapshot);
    SelectsFirstAccepted(sorted, backends, max, accept, r, k);
    var n := if max < |sorted| then max else |sorted|;
    assert |sorted| == |multiset(sorted)| == |backends|;
    if max >= |sorted| { assert sorted[..n] == sorted; }
    forall b | b in sorted[..n] && Accepts(accept, b)
      ensures r.Some? && Value(snapshot, r.value) <= Value(snapshot, b)
    {
      var j :| 0 <= j < n && sorted[j] == b;
      assert k <= j;
    }
  }

  /**
   * Argmin. A select over a sorted selector returns an accepted backend with the least snapshot
   * value among all accepted backends of the prefix its budget reaches, and None exactly when that
   * prefix holds no accepted backend. A budget of at least n reaches every backend of the set.
   */
  lemma SortedSelectIsArgmin(sorted: seq<Backend>, backends: seq<Backend>, snapshot: Snapshot,
                             max: nat, accept: Backend -> bool, r: Option<Backend>, k: nat)
    requires IsSortedSelector(sorted, backends, snapshot) && Ordered(backends) && KeysDiffer(backends)
    requires Selected(Listed(sorted), max, accept, r, k)
    ensures var reach := sorted[..if max < |sorted| then max else |sorted|];
            && (r.None? <==> forall b | b in reach :: !accept(b))
            && (r.Some? ==>
                  && r.value in reach && accept(r.value)
                  && (forall b | b in reach && accept(b) && b.id in snapshot ::
                        (if r.value.id in snapshot then snapshot[r.value.id] else 0.0) <= snapshot[b.id])
                  && (forall b | b in reach && accept(b) && b.id !in snapshot ::
                        (if r.value.id in snapshot then snapshot[r.value.id] else 0.0) <= 0.0))
            && (max >= |backends| ==> multiset(reach) == multiset(backends))
  {
    SortedSelectByValue(sorted, backends, snapshot, max, accept, r, k);
    assert forall b :: Accepts(accept, b) <==> accept(b);
    if r.Some? {
      forall b ensures Value(snapshot, b) == if b.id in snapshot then snapshot[b.id] else 0.0 {
      }
    }
  }
}
