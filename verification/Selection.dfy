/**
 * The selection engine: round-robin tickets, the weighted and the sorted iterators, deduplication
 * under an iteration budget, and `select_with`
 * (routini/src/load_balancing/strategy/utils.rs, round_robin.rs, mod.rs).
 */
module Selection {
  import opened Core

  const WORD: nat := 0x1_0000_0000_0000_0000

  type U64 = x: nat | x < WORD
  type U16 = x: nat | x < 0x1_0000

  /** `t % n`, written as repeated subtraction so that proofs about it stay linear. */
  function Mod(t: nat, n: nat): (r: nat)
    requires n > 0
    ensures r < n
    decreases t
  {
    if t < n then t else Mod(t - n, n)
  }

  lemma {:induction false} MultiplesGrow(n: nat, a: int, k: nat)
    ensures n * a <= n * (a + k)
  {
    if k > 0 {
      MultiplesGrow(n, a, k - 1);
      assert n * (a + k) == n * (a + k - 1) + n;
    }
  }

  lemma MultiplesApart(n: nat, a: int, b: int)
    ensures a < b ==> n * a + n <= n * b
  {
    if a < b {
      MultiplesGrow(n, a + 1, b - a - 1);
    }
  }

  lemma RemainderIs(t: nat, n: nat, q: nat, r: nat)
    requires r < n && t == n * q + r
    ensures t % n == r
  {
    MultiplesApart(n, t / n, q);
    MultiplesApart(n, q, t / n);
  }

  lemma {:induction false} ModIsRemainder(t: nat, n: nat)
    requires n > 0
    ensures Mod(t, n) == t % n
    decreases t
  {
    if t < n {
      RemainderIs(t, n, 0, t);
    } else {
      ModIsRemainder(t - n, n);
      var q, r := (t - n) / n, (t - n) % n;
      assert n * (q + 1) == n * q + n;
      RemainderIs(t, n, q + 1, r);
    }
  }

  /** Arithmetic on the 64-bit ticket counter wraps around. */
  function Wrap(x: nat): U64 { Mod(x, WORD) }

  lemma {:induction false} WrapSuccessor(x: nat)
    ensures Wrap(x + 1) == if Wrap(x) + 1 == WORD then 0 else Wrap(x) + 1
    decreases x
  {
    if x >= WORD {
      WrapSuccessor(x - WORD);
    }
  }

  // ---------------------------------------------------------------------------------------------
  // Tickets and the weighted list.

  class RoundRobinAlgo {
    var counter: U64
    /** Tickets drawn since the selector was built, not wrapped. */
    ghost var issued: nat

    ghost predicate Valid()
      reads this
    {
      counter == Wrap(issued)
    }

    constructor ()
      ensures Valid() && issued == 0
    {
      counter := 0;
      issued := 0;
    }

    /** `fetch_add(1)`: the ticket drawn is the counter before the increment. */
    method Next() returns (ticket: U64)
      requires Valid()
      modifies this
      ensures Valid() && issued == old(issued) + 1
      ensures ticket == Wrap(old(issued))
    {
      ticket := counter;
      WrapSuccessor(issued);
      counter := if counter + 1 == WORD then 0 else counter + 1;
      issued := issued + 1;
    }
  }

  function TotalWeight(s: seq<Backend>): nat {
    if s == [] then 0 else TotalWeight(s[..|s| - 1]) + s[|s| - 1].id.weight
  }

  /** Each index appears as often as its backend's weight, in blocks of ascending index. */
  ghost predicate IsWeighted(backends: seq<Backend>, weighted: seq<U16>) {
    && |weighted| == TotalWeight(backends)
    && (forall k | 0 <= k < |weighted| :: weighted[k] < |backends|)
    && (forall j, k | 0 <= j < k < |weighted| :: weighted[j] <= weighted[k])
    && (forall i: U16 | i < |backends| :: multiset(weighted)[i] == backends[i].id.weight)
  }

  /** The indices fit in 16 bits because `WeightedSelector::new` asserts at most 2^16 - 1 backends. */
  method BuildWeighted(backends: seq<Backend>) returns (weighted: seq<U16>)
    requires |backends| <= 0xFFFF
    ensures IsWeighted(backends, weighted)
  {
    weighted := [];
    var index := 0;
    while index < |backends|
      invariant 0 <= index <= |backends|
      invariant |weighted| == TotalWeight(backends[..index])
      invariant forall k | 0 <= k < |weighted| :: weighted[k] < index
      invariant forall j, k | 0 <= j < k < |weighted| :: weighted[j] <= weighted[k]
      invariant forall i: U16 :: multiset(weighted)[i] == if i < index then backends[i].id.weight else 0
    {
      var copies := 0;
      while copies < backends[index].id.weight
        invariant 0 <= copies <= backends[index].id.weight
        invariant |weighted| == TotalWeight(backends[..index]) + copies
        invariant forall k | 0 <= k < |weighted| :: weighted[k] <= index
        invariant forall j, k | 0 <= j < k < |weighted| :: weighted[j] <= weighted[k]
        invariant forall i: U16 :: multiset(weighted)[i] ==
                                   if i < index then backends[i].id.weight else if i == index then copies else 0
      {
        weighted := weighted + [index];
        copies := copies + 1;
      }
      assert backends[..index + 1][..index] == backends[..index];
      index := index + 1;
    }
    assert backends[..index] == backends;
  }

  /** The algorithm is shared: every iterator of the selector draws from the same counter. */
  datatype WeightedSelector =
    WeightedSelector(backends: seq<Backend>, weighted: seq<U16>, algorithm: RoundRobinAlgo) {

    /** `next` indexes the weighted list modulo its length, which panics when all weights are zero. */
    predicate Selectable() {
      && (backends != [] ==> weighted != [])
      && (forall k | 0 <= k < |weighted| :: weighted[k] < |backends|)
    }

    /** First choice for a ticket: its place in the weighted list. */
    function Weighted(ticket: U64): Backend
      requires Selectable() && backends != []
    {
      backends[weighted[Mod(ticket, |weighted|)]]
    }

    /** Fallback for a ticket: its place in the list of distinct backends. */
    function Fallback(ticket: U64): Backend
      requires backends != []
    {
      backends[Mod(ticket, |backends|)]
    }
  }

  lemma {:induction false} TotalIsZero(s: seq<Backend>)
    ensures TotalWeight(s) == 0 <==> forall i | 0 <= i < |s| :: s[i].id.weight == 0
  {
    if s != [] {
      var front := s[..|s| - 1];
      TotalIsZero(front);
      assert forall i | 0 <= i < |front| :: front[i] == s[i];
    }
  }

  /** An all-zero weight list is the one case in which a built selector cannot be iterated. */
  lemma SelectableUnlessWeightless(backends: seq<Backend>, weighted: seq<U16>, algorithm: RoundRobinAlgo)
    requires IsWeighted(backends, weighted)
    ensures WeightedSelector(backends, weighted, algorithm).Selectable() <==>
              (backends == [] || exists i | 0 <= i < |backends| :: backends[i].id.weight > 0)
  {
    TotalIsZero(backends);
  }

  // ---------------------------------------------------------------------------------------------
  // What an iterator yields, call by call.

  datatype Stream =
    /** A round-robin iterator that drew ticket number `start` and, undisturbed, its successors. */
    | Tickets(selector: WeightedSelector, start: nat)
    /** A sorted selector's iterator: an array, and then None. */
    | Listed(backends: seq<Backend>)
    /** Any other inner iterator; it may go on for ever. */
    | Any(items: nat -> Option<Backend>)

  /** The result of call number `k`. */
  function At(s: Stream, k: nat): Option<Backend> {
    match s
    case Tickets(w, start) =>
      if w.backends == [] || !w.Selectable() then None
      else if k == 0 then Some(w.Weighted(Wrap(start)))
      else Some(w.Fallback(Wrap(start + k)))
    case Listed(b) => if k < |b| then Some(b[k]) else None
    case Any(items) => items(k)
  }

  // ---------------------------------------------------------------------------------------------
  // Iterators. `calls` counts `next` calls; the fields follow from it while no other iterator
  // draws from the same counter.

  class WeightedIterator {
    const selector: WeightedSelector
    var index: U64
    var first: bool
    ghost const start: nat
    ghost var calls: nat

    /** Tickets drawn so far: one by the constructor, one by each call after the first. */
    ghost function Drawn(): nat
      reads this`calls
    {
      if selector.backends == [] || calls == 0 then 1 else calls
    }

    /** Whatever other iterators have drawn meanwhile. */
    ghost predicate Sound()
      reads this, selector.algorithm
    {
      && selector.Selectable()
      && selector.algorithm.Valid()
      && (selector.backends != [] ==> first == (calls == 0) && (first ==> index == Wrap(start)))
    }

    /** No other iterator has drawn a ticket since this one was made. */
    ghost predicate Valid()
      reads this, selector.algorithm
    {
      && Sound()
      && selector.algorithm.issued == start + Drawn()
      && (selector.backends != [] ==> index == Wrap(start + Drawn() - 1))
    }

    constructor (selector: WeightedSelector)
      requires selector.Selectable() && selector.algorithm.Valid()
      modifies selector.algorithm
      ensures Valid() && this.selector == selector && calls == 0
      ensures start == old(selector.algorithm.issued)
    {
      this.selector := selector;
      start := selector.algorithm.issued;
      var ticket := selector.algorithm.Next();
      index := ticket;
      first := true;
      calls := 0;
    }

    method Next() returns (r: Option<Backend>)
      requires Sound()
      modifies this, selector.algorithm
      ensures Sound() && calls == old(calls) + 1
      ensures selector.backends == [] ==> r == None
      ensures selector.backends != [] ==>
                r == Some(if old(calls) == 0 then selector.backends[selector.weighted[Mod(Wrap(start), |selector.weighted|)]]
                          else selector.backends[Mod(Wrap(old(selector.algorithm.issued)), |selector.backends|)])
      ensures selector.algorithm.issued ==
                old(selector.algorithm.issued) + if selector.backends == [] || old(calls) == 0 then 0 else 1
      ensures old(Valid()) ==> Valid() && r == At(Tickets(selector, start), old(calls))
    {
      calls := calls + 1;
      if |selector.backends| == 0 {
        return None;
      }
      if first {
        first := false;
        var len := |selector.weighted|;
        ModIsRemainder(index, len);
        var position := selector.weighted[index % len];
        r := Some(selector.backends[position]);
      } else {
        index := selector.algorithm.Next();
        var len := |selector.backends|;
        ModIsRemainder(index, len);
        r := Some(selector.backends[index % len]);
      }
    }
  }

  /** `FewestConnectionsIter` and `FastestServerIter`: walk an array and then stop. */
  class SortedIterator {
    const backends: seq<Backend>
    var index: nat
    ghost var calls: nat

    ghost predicate Valid()
      reads this
    {
      index == if calls < |backends| then calls else |backends|
    }

    constructor (backends: seq<Backend>)
      ensures Valid() && this.backends == backends && calls == 0
    {
      this.backends := backends;
      index := 0;
      calls := 0;
    }

    method Next() returns (r: Option<Backend>)
      requires Valid()
      modifies this
      ensures Valid() && calls == old(calls) + 1
      ensures r == At(Listed(backends), old(calls))
    {
      calls := calls + 1;
      if index >= |backends| {
        return None;
      }
      r := Some(backends[index]);
      index := index + 1;
    }
  }

  /**
   * Any other inner iterator, such as those of the random, hashing and ring selectors: call number
   * `k` yields item `k` of an arbitrary sequence, which may go on for ever.
   */
  class OtherIterator {
    const items: Stream
    var calls: nat

    constructor (items: Stream)
      ensures this.items == items && calls == 0
    {
      this.items := items;
      calls := 0;
    }

    method Next() returns (r: Option<Backend>)
      modifies this
      ensures calls == old(calls) + 1 && r == At(items, old(calls))
    {
      r := At(items, calls);
      calls := calls + 1;
    }
  }

  /** `AdaptiveIter`: forwards to the iterator it wraps. */
  datatype AdaptiveIter =
    | RoundRobin(weighted: WeightedIterator)
    | Sorted(sorted: SortedIterator)
    | Other(other: OtherIterator)
  {
    ghost function Footprint(): set<object> {
      match this
      case RoundRobin(iter) => {iter, iter.selector.algorithm}
      case Sorted(iter) => {iter}
      case Other(iter) => {iter}
    }

    ghost predicate Valid()
      reads Footprint()
    {
      match this
      case RoundRobin(iter) => iter.Valid()
      case Sorted(iter) => iter.Valid()
      case Other(_) => true
    }

    ghost function Calls(): nat
      reads Footprint()
    {
      match this
      case RoundRobin(iter) => iter.calls
      case Sorted(iter) => iter.calls
      case Other(iter) => iter.calls
    }

    ghost function Items(): Stream {
      match this
      case RoundRobin(iter) => Tickets(iter.selector, iter.start)
      case Sorted(iter) => Listed(iter.backends)
      case Other(iter) => iter.items
    }

    method Next() returns (r: Option<Backend>)
      requires Valid()
      modifies Footprint()
      ensures Valid() && Calls() == old(Calls()) + 1
      ensures r == At(Items(), old(Calls()))
    {
      match this
      case RoundRobin(iter) => r := iter.Next();
      case Sorted(iter) => r := iter.Next();
      case Other(iter) => r := iter.Next();
    }
  }

  /**
   * `AdaptiveSelector`. Of the selectors not modelled in detail only `items` is known, which is
   * whatever the iterator of one select yields.
   */
  datatype AdaptiveSelector =
    | RoundRobin(weighted: WeightedSelector)
    | Sorted(backends: seq<Backend>)
    | Other(items: Stream)
  {
    ghost function Footprint(): set<object> {
      if RoundRobin? then {weighted.algorithm} else {}
    }

    ghost predicate Valid()
      reads Footprint()
    {
      RoundRobin? ==> weighted.Selectable() && weighted.algorithm.Valid()
    }

    /** Round-robin tickets drawn from this selector so far. */
    ghost function Issued(): nat
      reads Footprint()
    {
      if RoundRobin? then weighted.algorithm.issued else 0
    }

    /** What an undisturbed iterator yields that starts after `issued` tickets. */
    ghost function Items(issued: nat): Stream {
      match this
      case RoundRobin(w) => Tickets(w, issued)
      case Sorted(b) => Listed(b)
      case Other(s) => s
    }

    /** `BackendSelection::iter`. */
    method Iter() returns (it: AdaptiveIter)
      requires Valid()
      modifies Footprint()
      ensures it.Valid() && it.Calls() == 0
      ensures it.Items() == Items(old(Issued()))
      ensures Footprint() <= it.Footprint() && fresh(it.Footprint() - Footprint())
    {
      match this
      case RoundRobin(w) =>
        var iter := new WeightedIterator(w);
        it := AdaptiveIter.RoundRobin(iter);
      case Sorted(b) =>
        var iter := new SortedIterator(b);
        it := AdaptiveIter.Sorted(iter);
      case Other(s) =>
        var iter := new OtherIterator(s);
        it := AdaptiveIter.Other(iter);
    }
  }

  // ---------------------------------------------------------------------------------------------
  // Deduplication under a budget.

  /** How many items a budget of `n` looks at: all `n`, or those before the stream's first None. */
  ghost function Looked(s: Stream, n: nat): (k: nat)
    ensures k <= n
  {
    if n == 0 then 0
    else
      var k := Looked(s, n - 1);
      if k < n - 1 || At(s, n - 1).None? then k else n
  }

  /** The hash keys among the first `n` items. */
  ghost function KeysSeen(s: Stream, n: nat): set<Key> {
    if n == 0 then {}
    else if At(s, n - 1).None? then KeysSeen(s, n - 1)
    else KeysSeen(s, n - 1) + {At(s, n - 1).value.key}
  }

  /** Item `k` is the first with its hash key. */
  ghost predicate FirstSeen(s: Stream, k: nat) {
    At(s, k).Some? && At(s, k).value.key !in KeysSeen(s, k)
  }

  /** Looking at one more item. */
  lemma LookAtNext(s: Stream, n: nat)
    requires Looked(s, n) == n && At(s, n).Some?
    ensures Looked(s, n + 1) == n + 1
    ensures KeysSeen(s, n + 1) == KeysSeen(s, n) + {At(s, n).value.key}
  {
  }

  /** Wraps an iterator; yields unseen items and gives up after `maxIterations` of them were looked at. */
  class UniqueIterator {
    const iter: AdaptiveIter
    const maxIterations: nat
    var seen: set<Key>
    var steps: nat
    ghost const items: Stream

    ghost predicate Valid()
      reads this, iter.Footprint()
    {
      && this !in iter.Footprint()
      && iter.Valid()
      && items == iter.Items()
      && steps <= maxIterations
      && steps == Looked(items, steps)
      && seen == KeysSeen(items, steps)
    }

    constructor (iter: AdaptiveIter, maxIterations: nat)
      requires iter.Valid() && iter.Calls() == 0
      ensures Valid() && steps == 0
      ensures this.iter == iter && this.maxIterations == maxIterations
      ensures items == iter.Items()
    {
      this.iter := iter;
      this.maxIterations := maxIterations;
      seen := {};
      steps := 0;
      items := iter.Items();
    }

    /** `self.iter.next()`. */
    method Advance() returns (item: Option<Backend>)
      requires Valid() && iter.Calls() == steps
      modifies iter.Footprint()
      ensures Valid() && iter.Calls() == steps + 1 && item == At(items, steps)
    {
      item := iter.Next();
    }

    /** Counts an item against the budget; remembers its key and says whether it was new. */
    method Look(item: Backend) returns (isNew: bool)
      requires Valid() && iter.Calls() == steps + 1 && steps < maxIterations && At(items, steps) == Some(item)
      modifies this`steps, this`seen
      ensures Valid() && iter.Calls() == steps == old(steps) + 1
      ensures isNew <==> FirstSeen(items, old(steps))
      ensures seen == if isNew then old(seen) + {item.key} else old(seen)
    {
      LookAtNext(items, steps);
      steps := steps + 1;
      var hashKey := item.key;
      isNew := hashKey !in seen;
      if isNew {
        seen := seen + {hashKey};
      }
    }

    /**
     * A result is the next item with an unseen key (`seen` grew by just that key); None means that
     * none is left within the budget. The inner iterator is advanced before the budget is checked.
     */
    method GetNext() returns (r: Option<Backend>)
      requires Valid() && iter.Calls() == steps
      modifies this, iter.Footprint()
      ensures Valid() && old(steps) <= steps
      ensures r.Some? ==>
                && old(steps) < steps == iter.Calls()
                && r == At(items, steps - 1)
                && FirstSeen(items, steps - 1)
                && seen == old(seen) + {r.value.key}
      ensures r.None? ==>
                && iter.Calls() == steps + 1
                && (steps == maxIterations || At(items, steps).None?)
                && seen == old(seen)
    {
      var item := Advance();
      while item.Some?
        invariant Valid() && iter.Calls() == steps + 1 && item == At(items, steps)
        invariant old(steps) <= steps && seen == old(seen)
        decreases maxIterations - steps
      {
        if steps >= maxIterations {
          return None;
        }
        var isNew := Look(item.value);
        if isNew {
          return item;
        }
        item := Advance();
      }
      return None;
    }
  }

  // ---------------------------------------------------------------------------------------------
  // `select_with`.

  function Accepts(accept: Backend -> bool, b: Backend): bool { accept(b) }

  /** Item `k` is a first occurrence that `accept` takes. */
  ghost predicate Eligible(s: Stream, accept: Backend -> bool, k: nat) {
    FirstSeen(s, k) && Accepts(accept, At(s, k).value)
  }

  /** `r` is the first eligible item the budget looks at, after `k` others; None if there is none. */
  ghost predicate Selected(s: Stream, max: nat, accept: Backend -> bool,
                           r: Option<Backend>, k: nat) {
    && k <= Looked(s, max)
    && (forall j | 0 <= j < k :: !Eligible(s, accept, j))
    && (r.Some? ==> k < Looked(s, max) && Eligible(s, accept, k) && r == At(s, k))
    && (r.None? ==> k == Looked(s, max))
  }

  /**
   * `LoadBalancer::select_with` while no other request draws tickets. It looks at `k` items in vain
   * and makes `k + 1` calls, each of which takes one ticket of a non-empty round-robin selector.
   */
  method SelectWith(selector: AdaptiveSelector, maxIterations: nat, accept: Backend -> bool)
    returns (r: Option<Backend>, ghost k: nat)
    requires selector.Valid()
    modifies selector.Footprint()
    ensures selector.Valid()
    ensures Selected(selector.Items(old(selector.Issued())), maxIterations, accept, r, k)
    ensures r.Some? ==> accept(r.value)
    ensures selector.RoundRobin? ==>
              selector.Issued() == old(selector.Issued()) + if selector.weighted.backends == [] then 1 else k + 1
  {
    var selection := selector.Iter();
    var iter := new UniqueIterator(selection, maxIterations);
    r, k := Search(iter, accept);
  }

  /** The count of items looked at is the budget, or the position of the first None. */
  lemma {:induction false} LookedIs(s: Stream, k: nat, n: nat)
    requires k <= n && Looked(s, k) == k
    ensures k <= Looked(s, n)
    ensures k == n || At(s, k).None? ==> Looked(s, n) == k
  {
    if k < n {
      LookedIs(s, k, n - 1);
    }
  }

  lemma {:induction false} KeysSeenGrow(s: Stream, i: nat, j: nat)
    requires i <= j
    ensures KeysSeen(s, i) <= KeysSeen(s, j)
    decreases j
  {
    if i < j {
      KeysSeenGrow(s, i, j - 1);
    }
  }

  /** Between two positions with the same keys seen there is no first occurrence. */
  lemma NothingNew(s: Stream, i: nat, j: nat)
    requires i <= j && KeysSeen(s, i) == KeysSeen(s, j)
    ensures forall k | i <= k < j :: !FirstSeen(s, k)
  {
    forall k | i <= k < j
      ensures !FirstSeen(s, k)
    {
      KeysSeenGrow(s, i, k);
      KeysSeenGrow(s, k + 1, j);
    }
  }

  /** No key was new from `i` on, and the budget or the stream ended at `k`. */
  lemma ExhaustedAt(s: Stream, i: nat, k: nat, max: nat)
    requires i <= k <= max && Looked(s, k) == k && (k == max || At(s, k).None?)
    requires KeysSeen(s, i) == KeysSeen(s, k)
    ensures Looked(s, max) == k
    ensures forall j | i <= j < k :: !FirstSeen(s, j)
  {
    LookedIs(s, k, max);
    NothingNew(s, i, k);
  }

  /** From `i` on, `k` is the first position with a new key. */
  lemma FoundAt(s: Stream, i: nat, k: nat, max: nat)
    requires i <= k < max && Looked(s, k + 1) == k + 1 && FirstSeen(s, k)
    requires KeysSeen(s, k + 1) == KeysSeen(s, i) + {At(s, k).value.key}
    ensures k < Looked(s, max)
    ensures forall j | i <= j < k :: !FirstSeen(s, j)
  {
    LookedIs(s, k + 1, max);
    KeysSeenGrow(s, i, k);
    NothingNew(s, i, k);
  }

  lemma NothingSelected(s: Stream, i: nat, k: nat, max: nat, accept: Backend -> bool)
    requires i <= k <= max && Looked(s, k) == k && (k == max || At(s, k).None?)
    requires KeysSeen(s, i) == KeysSeen(s, k) && forall j | 0 <= j < i :: !Eligible(s, accept, j)
    ensures Selected(s, max, accept, None, k)
  {
    ExhaustedAt(s, i, k, max);
  }

  lemma SelectedOrNot(s: Stream, i: nat, k: nat, max: nat, accept: Backend -> bool)
    requires i <= k < max && Looked(s, k + 1) == k + 1 && FirstSeen(s, k)
    requires KeysSeen(s, k + 1) == KeysSeen(s, i) + {At(s, k).value.key}
    requires forall j | 0 <= j < i :: !Eligible(s, accept, j)
    ensures if Accepts(accept, At(s, k).value) then Selected(s, max, accept, At(s, k), k)
            else forall j | 0 <= j < k + 1 :: !Eligible(s, accept, j)
  {
    FoundAt(s, i, k, max);
  }

  /** The loop of `select_with`. */
  method Search(iter: UniqueIterator, accept: Backend -> bool) returns (r: Option<Backend>, ghost k: nat)
    requires iter.Valid() && iter.steps == iter.iter.Calls() == 0
    modifies iter, iter.iter.Footprint()
    ensures iter.Valid() && iter.iter.Calls() == k + 1
    ensures Selected(iter.items, iter.maxIterations, accept, r, k)
  {
    ghost var s := iter.items;
    while true
      invariant iter.Valid() && iter.iter.Calls() == iter.steps
      invariant forall j | 0 <= j < iter.steps :: !Eligible(s, accept, j)
      decreases iter.maxIterations - iter.steps
    {
      ghost var before := iter.steps;
      var b := iter.GetNext();
      if b.None? {
        NothingSelected(s, before, iter.steps, iter.maxIterations, accept);
        return None, iter.steps;
      }
      SelectedOrNot(s, before, iter.steps - 1, iter.maxIterations, accept);
      if Accepts(accept, b.value) {
        return b, iter.steps - 1;
      }
    }
  }
}
