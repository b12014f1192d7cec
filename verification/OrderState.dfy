/** The order statuses, the legal changes between them, and the state machine object seen by one
    caller at a time. */
module OrderState {

  datatype OrderStatus =
    PENDING | OPEN | COMPLETE | CANCELLED | REJECTED | PARTIAL | TRIGGER_PENDING

  predicate IsLegal(from: OrderStatus, to: OrderStatus) {
    match from
    case PENDING => to.OPEN? || to.REJECTED? || to.CANCELLED? || to.TRIGGER_PENDING?
    case TRIGGER_PENDING => to.OPEN? || to.CANCELLED?
    case OPEN => to.COMPLETE? || to.PARTIAL? || to.CANCELLED?
    case PARTIAL => to.COMPLETE? || to.CANCELLED?
    case _ => false
  }

  /** The legal changes, told by where they lead. */
  lemma WaysInto(from: OrderStatus)
    ensures !IsLegal(from, PENDING)
    ensures IsLegal(from, TRIGGER_PENDING) <==> from == PENDING
    ensures IsLegal(from, OPEN) <==> from == PENDING || from == TRIGGER_PENDING
    ensures IsLegal(from, PARTIAL) <==> from == OPEN
    ensures IsLegal(from, COMPLETE) <==> from == OPEN || from == PARTIAL
    ensures IsLegal(from, REJECTED) <==> from == PENDING
    ensures IsLegal(from, CANCELLED) <==> from != COMPLETE && from != CANCELLED && from != REJECTED
  {
  }

  predicate IsTerminal(s: OrderStatus) {
    s.COMPLETE? || s.CANCELLED? || s.REJECTED?
  }

  /** The status after an undisturbed call of `transition(to)`. */
  function Advance(from: OrderStatus, to: OrderStatus): OrderStatus {
    if IsLegal(from, to) then to else from
  }

  class OrderStateMachine {
    var status: OrderStatus

    constructor (initial: OrderStatus)
      ensures status == initial
    {
      status := initial;
    }

    /** True exactly when the change is legal, and then it is made. */
    method Transition(to: OrderStatus) returns (ok: bool)
      modifies this
      ensures ok <==> IsLegal(old(status), to)
      ensures status == Advance(old(status), to)
    {
      var from := status;
      if !IsLegal(from, to) {
        return false;
      }
      ok := status == from;
      if ok {
        status := to;
      }
    }

    method Terminal() returns (b: bool)
      ensures b <==> forall to :: !IsLegal(status, to)
    {
      b := status == COMPLETE || status == CANCELLED || status == REJECTED;
      if status == PENDING || status == TRIGGER_PENDING || status == OPEN || status == PARTIAL {
        assert IsLegal(status, CANCELLED);
      }
    }
  }
}
