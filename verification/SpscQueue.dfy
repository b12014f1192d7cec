/** The lock-free single-producer single-consumer ring buffer. The class is the queue seen by one
    caller at a time; `SpscProtocol` interleaves the two threads step by step. */
module SpscQueue {
  import opened Basics
  import opened Bits
  import opened Fifo

  /** The slot of the i-th item held when the oldest one sits in slot `r`. */
  function Slot(r: nat, i: nat, capacity: nat): nat
    requires capacity > 0
  {
    (r + i) % capacity
  }

  /** Fewer than `capacity` items occupy distinct slots. */
  lemma SlotsDistinct(r: nat, i: nat, j: nat, capacity: nat)
    requires i < j < i + capacity
    ensures Slot(r, i, capacity) != Slot(r, j, capacity)
  {
    if Slot(r, i, capacity) == Slot(r, j, capacity) {
      ModInjective(r + i, r + j, capacity);
    }
  }

  /** Advancing the read position by one renumbers the slots. */
  lemma SlotNext(r: nat, i: nat, capacity: nat)
    requires capacity > 0
    ensures Slot((r + 1) % capacity, i, capacity) == Slot(r, i + 1, capacity)
  {
    var a, q := (r + 1) % capacity, (r + 1) / capacity;
    var s, q' := (a + i) % capacity, (a + i) / capacity;
    assert r + 1 == q * capacity + a && a + i == q' * capacity + s;
    assert (q + q') * capacity == q * capacity + q' * capacity;
    ModUnique(r + 1 + i, capacity, q + q', s);
  }

  /** The slot behind the write position is the read position exactly when one more item would be
      one too many. */
  lemma NextMeetsReader(r: nat, n: nat, capacity: nat)
    requires r < capacity && n + 1 <= capacity
    ensures (Slot(r, n, capacity) + 1) % capacity == Slot(r, n + 1, capacity)
    ensures Slot(r, n + 1, capacity) == r <==> n + 1 == capacity
  {
    ModSucc(r + n, capacity);
    SmallMod(r, capacity);
    ModShift(r, capacity);
    if n + 1 < capacity {
      SlotsDistinct(r, 0, n + 1, capacity);
    }
  }

  /** Below twice the modulus the remainder needs at most one subtraction. */
  lemma ModBelowTwice(x: nat, c: nat)
    requires c > 0 && x < 2 * c
    ensures x % c == if x < c then x else x - c
  {
    if x < c {
      SmallMod(x, c);
    } else {
      ModUnique(x, c, 1, x - c);
    }
  }

  lemma WordIsMultiple(n: nat, k: nat)
    requires k <= 63 && n < Pow2(k)
    ensures Pow2(k) <= WORD && (WORD - Pow2(k) + n) % Pow2(k) == n
  {
    var c, big := Pow2(k), Pow2(64 - k);
    assert WORD == big * c by {
      Pow2Of64();
      Pow2Sum(64 - k, k);
    }
    Pow2Below(k, 64);
    Pow2Of64();
    assert (big - 1) * c == big * c - c;
    ModUnique(WORD - c + n, c, big - 1, n);
  }

  /** The number of items between the two positions, computed with 64-bit wrap-around. */
  lemma Distance(w: nat, r: nat, n: nat, k: nat)
    requires k <= 63 && w < Pow2(k) && r < Pow2(k) && n < Pow2(k)
    requires w == Slot(r, n, Pow2(k))
    ensures w + WORD - r >= 0
    ensures (if w >= r then w - r else w + WORD - r) % Pow2(k) == n
  {
    ModBelowTwice(r + n, Pow2(k));
    WordIsMultiple(n, k);
    SmallMod(n, Pow2(k));
  }

  class SpscQueue<T(0, ==)> {
    const log: nat
    const capacity: nat
    const mask: nat
    const data: array<T>
    var writePos: nat
    var readPos: nat
    ghost var items: seq<T>

    ghost predicate Valid()
      reads this, data
    {
      && capacity == Pow2(log) && mask == capacity - 1 && data.Length == capacity
      && writePos < capacity && readPos < capacity
      && |items| <= capacity - 1
      && writePos == Slot(readPos, |items|, capacity)
      && forall i :: 0 <= i < |items| ==> data[Slot(readPos, i, capacity)] == items[i]
    }

    constructor (log: nat)
      ensures Valid() && items == [] && this.log == log && capacity == Pow2(log) && fresh(data)
    {
      this.log, capacity, mask := log, Pow2(log), Pow2(log) - 1;
      data := new T[Pow2(log)];
      writePos, readPos := 0, 0;
      items := [];
    }

    method Push(item: T) returns (ok: bool)
      requires Valid()
      modifies this`writePos, this`items, data
      ensures Valid()
      ensures Allows(capacity, old(items), if ok then Enqueue(item) else RefusePush, items)
    {
      var w := writePos;
      var nextW := And(w + 1, mask);
      AndMask(w + 1, log);
      NextMeetsReader(readPos, |items|, capacity);
      hide Slot, And, Pow2;
      if nextW == readPos {
        return false;
      }
      forall i | 0 <= i < |items|
        ensures Slot(readPos, i, capacity) != w
      {
        SlotsDistinct(readPos, i, |items|, capacity);
      }
      data[w] := item;
      writePos := nextW;
      items := items + [item];
      return true;
    }

    method Pop() returns (r: Option<T>)
      requires Valid()
      modifies this`readPos, this`items
      ensures Valid()
      ensures Allows(capacity, old(items), if r.Some? then Dequeue(r.value) else RefusePop, items)
    {
      var p := readPos;
      assert p == Slot(p, 0, capacity) by {
        SmallMod(p, capacity);
      }
      if p == writePos {
        if items != [] {
          SlotsDistinct(p, 0, |items|, capacity);
        }
        return None;
      }
      var item := data[p];
      readPos := And(p + 1, mask);
      AndMask(p + 1, log);
      items := items[1..];
      forall i | 0 <= i <= |items|
        ensures Slot(readPos, i, capacity) == Slot(p, i + 1, capacity)
      {
        SlotNext(p, i, capacity);
      }
      return Some(item);
    }

    /** Writes to the out-parameter instead of wrapping the item; `out` keeps its value on false. */
    method TryPop(out0: T) returns (ok: bool, out: T)
      requires Valid()
      modifies this`readPos, this`items
      ensures Valid()
      ensures Allows(capacity, old(items), if ok then Dequeue(out) else RefusePop, items)
      ensures !ok ==> out == out0
    {
      var r := Pop();
      match r
      case Some(x) => return true, x;
      case None => return false, out0;
    }

    method Empty() returns (r: bool)
      requires Valid()
      ensures r <==> items == []
    {
      SmallMod(readPos, capacity);
      if items != [] {
        SlotsDistinct(readPos, 0, |items|, capacity);
      }
      return readPos == writePos;
    }

    /** `(w - r) & mask` over 64-bit words, where `w - r` wraps around below zero. */
    method Size() returns (n: nat)
      requires Valid() && log <= 63
      ensures n == |items|
    {
      var w, r := writePos, readPos;
      Distance(w, r, |items|, log);
      var difference := if w >= r then w - r else w + WORD - r;
      n := And(difference, mask);
      AndMask(difference, log);
    }
  }
}
