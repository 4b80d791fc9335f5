/** Backends as the load balancer identifies and orders them (routini/src/load_balancing/mod.rs). */
module Core {
  datatype Option<+T> = None | Some(value: T)

  /** Socket addresses are opaque: only their equality and their order matter here. */
  type Addr = nat

  /** The 64-bit hash keys of `Backend::hash_key`. */
  type Key = nat

  /** Names the shared metrics cell that all clones of a backend point at. */
  type Handle = nat

  /** Identity of a backend: equality, order and hash look at address and weight only. */
  datatype Id = Id(addr: Addr, weight: nat)

  /** `key` is the result of `hash_key()`; it is a function of address and weight. */
  datatype Backend = Backend(id: Id, key: Key, ext: map<nat, nat>, metrics: Handle)

  predicate Less(x: Id, y: Id) {
    x.addr < y.addr || (x.addr == y.addr && x.weight < y.weight)
  }

  /** The order is strict and total. */
  lemma LessIsTotal(x: Id, y: Id, z: Id)
    ensures Less(x, y) || Less(y, x) || x == y
    ensures !(Less(x, y) && Less(y, x)) && !Less(x, x)
    ensures Less(x, y) && Less(y, z) ==> Less(x, z)
  {
  }

  /** A `BTreeSet<Backend>` listed in iteration order. */
  ghost predicate Ordered(s: seq<Backend>) {
    forall i, j | 0 <= i < j < |s| :: Less(s[i].id, s[j].id)
  }

  /** No two backends of `s` share a hash key. */
  ghost predicate KeysDiffer(s: seq<Backend>) {
    forall i, j | 0 <= i < |s| && 0 <= j < |s| && s[i].key == s[j].key :: s[i].id == s[j].id
  }

  function FindFrom(s: seq<Backend>, id: Id, from: nat): (r: Option<Backend>)
    requires from <= |s|
    ensures r.Some? ==> r.value in s && r.value.id == id
    ensures r.None? ==> forall i | from <= i < |s| :: s[i].id != id
    decreases |s| - from
  {
    if from == |s| then None
    else if s[from].id == id then Some(s[from])
    else FindFrom(s, id, from + 1)
  }

  /** `BTreeSet::get`: the stored backend equal to one with identity `id`. */
  function Find(s: seq<Backend>, id: Id): (r: Option<Backend>)
    ensures r.Some? ==> r.value in s && r.value.id == id
    ensures r.None? ==> forall i | 0 <= i < |s| :: s[i].id != id
  {
    FindFrom(s, id, 0)
  }

  lemma OrderedIdsUnique(s: seq<Backend>)
    requires Ordered(s)
    ensures forall i, j | 0 <= i < |s| && 0 <= j < |s| && s[i].id == s[j].id :: i == j
  {
    forall i, j | 0 <= i < |s| && 0 <= j < |s| && i != j
      ensures s[i].id != s[j].id
    {
      assert Less(s[i].id, s[j].id) || Less(s[j].id, s[i].id);
    }
  }
}
