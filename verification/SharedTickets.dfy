/**
 * A round-robin select while others draw from the same counter (strategy/utils.rs:88-108,
 * round_robin.rs:32-34): what it sees depends on the tickets it happens to get.
 */
module SharedTickets {
  import opened Core
  import opened Selection
  import opened RoundRobin

  /** What an iterator yields whose call number `k` draws ticket number `tickets(k)` (see `WeightedIterator.Next`). */
  function Drawn(w: WeightedSelector, tickets: nat -> nat): Stream {
    Any((k: nat) =>
      if w.backends == [] || !w.Selectable() then None
      else if k == 0 then Some(w.Weighted(Wrap(tickets(0))))
      else Some(w.Fallback(Wrap(tickets(k)))))
  }

  function Successive(start: nat): nat -> nat { (k: nat) => start + k }

  /** An undisturbed iterator is the one that draws successive tickets. */
  lemma UndisturbedDrawsSuccessive(w: WeightedSelector, start: nat, k: nat)
    ensures At(Drawn(w, Successive(start)), k) == At(Tickets(w, start), k)
  {
  }

  lemma {:induction false} DrawnNeverEnds(w: WeightedSelector, tickets: nat -> nat, n: nat)
    requires w.Selectable() && w.backends != []
    ensures Looked(Drawn(w, tickets), n) == n
  {
    if n > 0 { DrawnNeverEnds(w, tickets, n - 1); }
  }

  /** Fallback number `k` has remainder `i`. */
  predicate HasRemainder(n: nat, tickets: nat -> nat, k: nat, i: nat)
    requires n > 0
  {
    Mod(Wrap(tickets(k)), n) == i
  }

  /** Position `i` is hit by the first ticket through the weighted list, or by the remainder of a later one. */
  ghost predicate Hit(w: WeightedSelector, tickets: nat -> nat, max: nat, i: nat)
    requires w.Selectable() && i < |w.backends|
  {
    || (max > 0 && w.Weighted(Wrap(tickets(0))) == w.backends[i])
    || exists k: nat | 0 < k < max :: HasRemainder(|w.backends|, tickets, k, i)
  }

  lemma HitIsLookedAt(w: WeightedSelector, tickets: nat -> nat, max: nat, i: nat)
    requires w.Selectable() && i < |w.backends| && Hit(w, tickets, max, i)
    ensures LookedAt(Drawn(w, tickets), max, w.backends[i])
  {
    var s := Drawn(w, tickets);
    DrawnNeverEnds(w, tickets, max);
    if max > 0 && w.Weighted(Wrap(tickets(0))) == w.backends[i] {
      assert 0 < Looked(s, max) && At(s, 0) == Some(w.backends[i]);
    } else {
      var k: nat :| 0 < k < max && HasRemainder(|w.backends|, tickets, k, i);
      assert k < Looked(s, max) && At(s, k) == Some(w.backends[i]);
    }
  }

  lemma LookedAtIsHit(w: WeightedSelector, tickets: nat -> nat, max: nat, i: nat)
    requires w.Selectable() && Ordered(w.backends) && i < |w.backends|
    requires LookedAt(Drawn(w, tickets), max, w.backends[i])
    ensures Hit(w, tickets, max, i)
  {
    var s := Drawn(w, tickets);
    DrawnNeverEnds(w, tickets, max);
    var k :| 0 <= k < Looked(s, max) && At(s, k) == Some(w.backends[i]);
    OrderedIdsUnique(w.backends);
    assert k > 0 ==> HasRemainder(|w.backends|, tickets, k, i);
  }

  ghost predicate AllHit(w: WeightedSelector, tickets: nat -> nat, max: nat)
    requires w.Selectable()
  {
    forall i | 0 <= i < |w.backends| :: Hit(w, tickets, max, i)
  }

  lemma DrawnIsBackend(w: WeightedSelector, tickets: nat -> nat, k: nat)
    requires w.Selectable() && w.backends != []
    ensures At(Drawn(w, tickets), k).Some? && At(Drawn(w, tickets), k).value in w.backends
  {
    assert k == 0 ==> At(Drawn(w, tickets), 0) == Some(w.Weighted(Wrap(tickets(0))));
    assert k > 0 ==> At(Drawn(w, tickets), k) == Some(w.Fallback(Wrap(tickets(k))));
  }

  lemma OnlyBackendsDrawn(w: WeightedSelector, tickets: nat -> nat, max: nat)
    requires w.Selectable() && w.backends != []
    ensures forall k | 0 <= k < Looked(Drawn(w, tickets), max) ::
              At(Drawn(w, tickets), k).Some? && At(Drawn(w, tickets), k).value in w.backends
  {
    forall k | 0 <= k < Looked(Drawn(w, tickets), max)
      ensures At(Drawn(w, tickets), k).Some? && At(Drawn(w, tickets), k).value in w.backends
    {
      DrawnIsBackend(w, tickets, k);
    }
  }

  /**
   * Whatever tickets it gets, a select sees every backend exactly when the first goes through the
   * weighted list, and the remainders of the later ones go, to every position between them.
   */
  lemma DrawnCoversIff(w: WeightedSelector, tickets: nat -> nat, max: nat)
    requires w.Selectable() && w.backends != [] && Ordered(w.backends)
    ensures Covers(Drawn(w, tickets), max, w.backends) <==> AllHit(w, tickets, max)
  {
    forall i | 0 <= i < |w.backends|
      ensures LookedAt(Drawn(w, tickets), max, w.backends[i]) <==> Hit(w, tickets, max, i)
    {
      if Hit(w, tickets, max, i) { HitIsLookedAt(w, tickets, max, i); }
      if LookedAt(Drawn(w, tickets), max, w.backends[i]) { LookedAtIsHit(w, tickets, max, i); }
    }
    OnlyBackendsDrawn(w, tickets, max);
  }

  // ---------------------------------------------------------------------------------------------
  // Selects that take turns.

  /** The tickets of one of `d` selects that draw in turn. */
  function InTurn(start: nat, d: nat): nat -> nat { (k: nat) => start + d * k }

  lemma {:induction false} SameRemainder(start: nat, d: nat, k: nat)
    requires d > 0
    ensures Mod(start + d * k, d) == Mod(start, d)
    decreases k
  {
    if k > 0 {
      assert start + d * k == start + d * (k - 1) + d;
      SameRemainder(start, d, k - 1);
    }
  }

  /** The remainder modulo a multiple of `d` has the same remainder modulo `d`. */
  lemma {:induction false} RemainderOfRemainder(t: nat, d: nat, q: nat)
    requires d > 0 && q > 0 && d * q > 0
    ensures Mod(Mod(t, d * q), d) == Mod(t, d)
    decreases t
  {
    if t >= d * q {
      RemainderOfRemainder(t - d * q, d, q);
      SameRemainder(t - d * q, d, q);
    }
  }

  lemma TurnRemainder(start: nat, d: nat, q: nat, max: nat, k: nat)
    requires d >= 2 && q > 0 && d * q > 0 && start + d * max <= WORD && k < max
    ensures Wrap(start + d * k) == start + d * k
    ensures Mod(Mod(start + d * k, d * q), d) == Mod(start, d)
  {
    assert d * k < d * max;
    RemainderOfRemainder(start + d * k, d, q);
    SameRemainder(start, d, k);
  }

  /** A position with another remainder modulo d than the first ticket is never hit. */
  lemma TurnMisses(w: WeightedSelector, start: nat, d: nat, q: nat, max: nat, i: nat)
    requires w.Selectable() && Ordered(w.backends) && |w.weighted| == |w.backends|
    requires forall k | 0 <= k < |w.weighted| :: w.weighted[k] == k
    requires d >= 2 && q > 0 && |w.backends| == d * q > 0 && start + d * max <= WORD
    requires i < d && i < |w.backends| && i != Mod(start, d)
    ensures !Hit(w, InTurn(start, d), max, i)
  {
    OrderedIdsUnique(w.backends);
    forall k: nat | k < max ensures Mod(Wrap(InTurn(start, d)(k)), |w.backends|) != i {
      TurnRemainder(start, d, q, max, k);
      assert Mod(i, d) == i;
    }
    if max > 0 {
      var j := Mod(Wrap(InTurn(start, d)(0)), |w.backends|);
      assert w.Weighted(Wrap(InTurn(start, d)(0))) == w.backends[j];
    }
  }

  lemma UnitLists(w: WeightedSelector)
    requires IsWeighted(w.backends, w.weighted) && w.backends != [] && |w.backends| <= 0xFFFF
    requires forall i | 0 <= i < |w.backends| :: w.backends[i].id.weight == 1
    ensures w.Selectable() && |w.weighted| == |w.backends| && forall k | 0 <= k < |w.weighted| :: w.weighted[k] == k
  {
    UnitTotal(w.backends);
    UnitWeightedIsIdentity(w);
  }

  lemma AtLeastFactor(d: nat, q: nat)
    requires q > 0
    ensures d * q >= d
  {
  }

  /**
   * When d selects take turns at n = d q backends of weight one, each keeps hitting the positions
   * with one remainder modulo d: for d of 2 or more, no budget shows it all backends before the
   * counter wraps. Two selects in turn over two backends each see only one of them.
   */
  lemma TakingTurnsMisses(w: WeightedSelector, start: nat, d: nat, q: nat, max: nat)
    requires IsWeighted(w.backends, w.weighted) && Ordered(w.backends) && 0 < |w.backends| <= 0xFFFF
    requires forall i | 0 <= i < |w.backends| :: w.backends[i].id.weight == 1
    requires d >= 2 && q > 0 && |w.backends| == d * q && start + d * max <= WORD
    ensures w.Selectable() && !Covers(Drawn(w, InTurn(start, d)), max, w.backends)
  {
    UnitLists(w);
    DrawnCoversIff(w, InTurn(start, d), max);
    var i := if Mod(start, d) == 0 then 1 else 0;
    AtLeastFactor(d, q);
    TurnMisses(w, start, d, q, max, i);
    assert !Hit(w, InTurn(start, d), max, i);
  }
}
