/** The bounded first-in first-out queue that the ring buffer is supposed to be. One slot of the
    ring always stays empty, so `capacity - 1` items fit. */
module Fifo {

  /** What one step of a producer or of a consumer shows to the outside. */
  datatype Label<T> =
    | Silent
    | Enqueue(item: T)
    | Dequeue(item: T)
    | RefusePush
    | RefusePop
    | Garbage // a consumer obtained something that nobody pushed

  /** May the queue holding `q`, oldest first, show `l`? */
  predicate Permits<T(==)>(capacity: nat, q: seq<T>, l: Label<T>) {
    match l
    case Silent => true
    case Enqueue(_) => |q| < capacity - 1
    case Dequeue(x) => q != [] && x == q[0]
    case RefusePush => |q| >= capacity - 1
    case RefusePop => q == []
    case Garbage => false
  }

  function After<T>(q: seq<T>, l: Label<T>): seq<T> {
    match l
    case Enqueue(x) => q + [x]
    case Dequeue(_) => if q == [] then [] else q[1..]
    case _ => q
  }

  ghost predicate Allows<T>(capacity: nat, q: seq<T>, l: Label<T>, q': seq<T>) {
    Permits(capacity, q, l) && q' == After(q, l)
  }

  /** The contents after the labels `ls`, starting empty. */
  function Contents<T>(ls: seq<Label<T>>): seq<T> {
    if ls == [] then [] else After(Contents(ls[..|ls| - 1]), ls[|ls| - 1])
  }

  /** A queue that starts empty may show `ls`, in this order. */
  predicate Legal<T(==)>(capacity: nat, ls: seq<Label<T>>) {
    ls != [] ==>
      && Legal(capacity, ls[..|ls| - 1])
      && Permits(capacity, Contents(ls[..|ls| - 1]), ls[|ls| - 1])
  }

  function Enqueued<T>(ls: seq<Label<T>>): seq<T> {
    if ls == [] then []
    else Enqueued(ls[..|ls| - 1]) + (if ls[|ls| - 1].Enqueue? then [ls[|ls| - 1].item] else [])
  }

  function Dequeued<T>(ls: seq<Label<T>>): seq<T> {
    if ls == [] then []
    else Dequeued(ls[..|ls| - 1]) + (if ls[|ls| - 1].Dequeue? then [ls[|ls| - 1].item] else [])
  }

  /** What the queue promises its users: whatever went in came out in the same order or is
      still held, and never more than `capacity - 1` items are held. */
  lemma {:induction false} LegalIsFifo<T>(capacity: nat, ls: seq<Label<T>>)
    requires capacity >= 1 && Legal(capacity, ls)
    ensures Enqueued(ls) == Dequeued(ls) + Contents(ls)
    ensures |Contents(ls)| <= capacity - 1
    decreases |ls|
  {
    if ls != [] {
      var init := ls[..|ls| - 1];
      LegalIsFifo(capacity, init);
      var q := Contents(init);
      if ls[|ls| - 1].Dequeue? {
        assert q == [q[0]] + q[1..];
      }
    }
  }
}
