/** A partition of the pool's slots, told by naming the owner of each slot: its place on the free
    list, the live order it holds, or the submission that prepares it. */
module SlotOwners {
  import opened OrderPool

  datatype Owner<K> = Free(i: nat) | Live(id: K) | Held(t: nat)

  /** `own` names exactly one owner for every slot, and every owner owns its slot. */
  ghost predicate Owned<K>(free: seq<nat>, orders: map<K, nat>, held: map<nat, nat>, own: seq<Owner<K>>) {
    && (forall k :: 0 <= k < |own| ==> OwnsBack(free, orders, held, own[k], k))
    && (forall i :: 0 <= i < |free| ==> free[i] < |own| && own[free[i]] == Free(i))
    && (forall id :: id in orders ==> orders[id] < |own| && own[orders[id]] == Live(id))
    && (forall t :: t in held ==> held[t] < |own| && own[held[t]] == Held(t))
    && |free| + |orders| + |held| == |own|
  }

  ghost predicate OwnsBack<K>(free: seq<nat>, orders: map<K, nat>, held: map<nat, nat>, o: Owner<K>, k: nat) {
    match o
    case Free(i) => i < |free| && free[i] == k
    case Live(id) => id in orders && orders[id] == k
    case Held(t) => t in held && held[t] == k
  }

  function AllFree<K>(n: nat): seq<Owner<K>> { seq(n, i requires 0 <= i < n => Free(i)) }

  lemma NewPoolOwned<K>(n: nat)
    ensures Owned<K>(AllSlots(n), map[], map[], AllFree(n))
  {
  }

  lemma RemoveSize<K, V>(m: map<K, V>, k: K)
    requires k in m
    ensures |m - {k}| == |m| - 1
  {
    assert (m - {k}).Keys == m.Keys - {k};
    assert |(m - {k}).Keys| == |m - {k}| && |m.Keys| == |m|;
  }

  /** A submission takes the slot on top of the free list. */
  lemma Take<K>(free: seq<nat>, orders: map<K, nat>, held: map<nat, nat>, own: seq<Owner<K>>, t: nat)
    requires Owned(free, orders, held, own) && free != [] && t !in held
    ensures var k := free[|free| - 1];
      k < |own| && Owned(free[..|free| - 1], orders, held[t := k], own[k := Held(t)])
  {
  }

  /** It enters its order under an id that is not in use. */
  lemma Enter<K>(free: seq<nat>, orders: map<K, nat>, held: map<nat, nat>, own: seq<Owner<K>>, t: nat, id: K)
    requires Owned(free, orders, held, own) && t in held && id !in orders
    ensures held[t] < |own| && Owned(free, orders[id := held[t]], held - {t}, own[held[t] := Live(id)])
  {
    RemoveSize(held, t);
  }

  /** A live order is given up and its slot goes back on top of the free list. */
  lemma GiveBack<K>(free: seq<nat>, orders: map<K, nat>, held: map<nat, nat>, own: seq<Owner<K>>, id: K)
    requires Owned(free, orders, held, own) && id in orders
    ensures Owned(free + [orders[id]], orders - {id}, held, own[orders[id] := Free(|free|)])
  {
    RemoveSize(orders, id);
  }

  /** What ownership means: nothing twice on the free list, no slot in two places, none nowhere,
      and the three counts add up to the size of the pool. */
  lemma OwnedIsPartition<K>(free: seq<nat>, orders: map<K, nat>, held: map<nat, nat>, own: seq<Owner<K>>)
    requires Owned(free, orders, held, own)
    ensures NoDuplicates(free)
    ensures forall id, id' :: id in orders && id' in orders && id != id' ==> orders[id] != orders[id']
    ensures forall t, t' :: t in held && t' in held && t != t' ==> held[t] != held[t']
    ensures forall id :: id in orders ==> orders[id] !in free
    ensures forall t :: t in held ==> held[t] !in free
    ensures forall id, t :: id in orders && t in held ==> orders[id] != held[t]
    ensures forall k :: 0 <= k < |own| ==>
      k in free || (exists id :: id in orders && orders[id] == k) || (exists t :: t in held && held[t] == k)
    ensures |free| + |orders| + |held| == |own|
  {
    forall i, j | 0 <= i < j < |free|
      ensures free[i] != free[j]
    {
      assert own[free[i]] == Free(i) && own[free[j]] == Free(j);
    }
    forall k | 0 <= k < |own|
      ensures k in free || (exists id :: id in orders && orders[id] == k) || (exists t :: t in held && held[t] == k)
    {
      assert OwnsBack(free, orders, held, own[k], k);
      match own[k]
      case Free(i) => assert free[i] == k;
      case Live(id) => assert orders[id] == k;
      case Held(t) => assert held[t] == k;
    }
  }
}
