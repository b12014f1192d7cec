/** The pre-allocated pool of orders: a fixed array of slots and a stack of the free ones. */
module OrderPool {
  import opened Basics
  import opened Records
  import opened OrderState

  datatype Order = Order(
    id: string, strategy: string, token: nat, side: Side, orderType: OrderType, status: OrderStatus,
    quantity: int, filledQty: int, limitPrice: real, avgFillPrice: real, lastUpdate: nat)

  const BLANK := Order("", "", 0, BUY, MARKET, PENDING, 0, 0, 0.0, 0.0, 0)

  /** A slot: the order and its state machine. */
  datatype Pooled = Pooled(order: Order, sm: OrderStatus)

  predicate NoDuplicates(s: seq<nat>) {
    forall i, j :: 0 <= i < j < |s| ==> s[i] != s[j]
  }

  /** The free list of a new pool: every slot once. */
  function AllSlots(n: nat): (s: seq<nat>)
    ensures |s| == n && NoDuplicates(s)
    ensures forall k :: 0 <= k < n ==> s[k] == k
  {
    if n == 0 then [] else AllSlots(n - 1) + [n - 1]
  }

  class OrderPool {
    const slots: array<Pooled>
    var freeList: seq<nat>

    ghost predicate Valid()
      reads this
    {
      forall i :: 0 <= i < |freeList| ==> freeList[i] < slots.Length
    }

    constructor (n: nat)
      ensures Valid() && fresh(slots) && slots.Length == n
      ensures freeList == AllSlots(n)
      ensures forall k :: 0 <= k < n ==> slots[k] == Pooled(BLANK, PENDING)
    {
      slots := new Pooled[n](_ => Pooled(BLANK, PENDING));
      freeList := AllSlots(n);
    }

    /** Nothing exactly when the pool is exhausted; otherwise the slot freed last, wiped clean. */
    method Acquire() returns (p: Option<nat>)
      requires Valid()
      modifies this, slots
      ensures Valid()
      ensures p.None? <==> old(freeList) == []
      ensures p.None? ==> freeList == old(freeList) && slots[..] == old(slots[..])
      ensures p.Some? ==>
        && p.value < slots.Length && old(freeList) == freeList + [p.value]
        && slots[..] == old(slots[..])[p.value := Pooled(BLANK, PENDING)]
    {
      if freeList == [] {
        return None;
      }
      var k := freeList[|freeList| - 1];
      freeList := freeList[..|freeList| - 1];
      slots[k] := slots[k].(order := BLANK);
      slots[k] := slots[k].(sm := PENDING);
      return Some(k);
    }

    method Release(p: Option<nat>)
      requires Valid() && (p.Some? ==> p.value < slots.Length)
      modifies this
      ensures Valid()
      ensures freeList == if p.Some? then old(freeList) + [p.value] else old(freeList)
    {
      if p.None? {
        return;
      }
      freeList := freeList + [p.value];
    }
  }
}
