/** The order lifecycle: the closed set of statuses, their derived predicates and
    the table of allowed status transitions. */
module OrderStatuses {

  datatype OrderStatus = Pending | Confirmed | Processing | Shipped | Delivered | Cancelled

  /** Only PENDING and CONFIRMED orders may be cancelled. */
  predicate IsCancellable(s: OrderStatus) {
    s == Pending || s == Confirmed
  }

  /** DELIVERED and CANCELLED end the lifecycle. */
  predicate IsTerminal(s: OrderStatus) {
    s == Delivered || s == Cancelled
  }

  /** Only a PENDING order may still be modified. */
  predicate IsModifiable(s: OrderStatus) {
    s == Pending
  }

  /** The allowed edges of the lifecycle, listed one by one. */
  const Edges: set<(OrderStatus, OrderStatus)> :=
    {(Pending, Confirmed), (Confirmed, Processing), (Processing, Shipped),
     (Shipped, Delivered), (Pending, Cancelled), (Confirmed, Cancelled)}

  /** The transition check of the order service: the rule is chosen by the
      REQUESTED status, and a request for PENDING is never allowed. */
  predicate CanTransition(current: OrderStatus, requested: OrderStatus)
    ensures CanTransition(current, requested) <==> (current, requested) in Edges
  {
    match requested
    case Confirmed => current == Pending
    case Processing => current == Confirmed
    case Shipped => current == Processing
    case Delivered => current == Shipped
    case Cancelled => IsCancellable(current)
    case Pending => false
  }

  /** Position of a status along the lifecycle; every allowed edge climbs it. */
  function Rank(s: OrderStatus): nat {
    match s
    case Pending => 0
    case Confirmed => 1
    case Processing => 2
    case Shipped => 3
    case Delivered => 4
    case Cancelled => 5
  }

  lemma ModifiableIsCancellable(s: OrderStatus)
    ensures IsModifiable(s) ==> IsCancellable(s)
    ensures IsModifiable(s) <==> s == Pending
  {
  }

  lemma TerminalExcludesCancellable(s: OrderStatus)
    ensures !(IsTerminal(s) && IsCancellable(s))
  {
  }

  /** Terminal statuses are exactly those with no allowed outgoing edge. */
  lemma TerminalIffNoSuccessor(s: OrderStatus)
    ensures IsTerminal(s) <==> forall t :: !CanTransition(s, t)
  {
    if !IsTerminal(s) {
      var t := match s
        case Pending => Confirmed
        case Confirmed => Processing
        case Processing => Shipped
        case Shipped => Delivered
        case _ => Pending;
      assert CanTransition(s, t);
    }
  }

  /** PENDING is only ever the initial status: no edge leads into it. */
  lemma PendingIsNeverATarget(s: OrderStatus)
    ensures !CanTransition(s, Pending)
  {
  }

  /** Cancelling is allowed exactly from the cancellable statuses. */
  lemma CancelEdgeMatchesCancellable(s: OrderStatus)
    ensures CanTransition(s, Cancelled) <==> IsCancellable(s)
  {
  }

  /** Every allowed edge strictly climbs the lifecycle, so there are no cycles. */
  lemma EdgesClimb(a: OrderStatus, b: OrderStatus)
    ensures CanTransition(a, b) ==> Rank(a) < Rank(b)
  {
  }

  /** A run is a sequence of statuses each reached from its predecessor by an
      allowed edge. */
  predicate IsRun(p: seq<OrderStatus>) {
    forall i :: 0 <= i < |p| - 1 ==> CanTransition(p[i], p[i + 1])
  }

  /** Along a run the rank grows by at least one per step. */
  lemma {:induction false} RunClimbs(p: seq<OrderStatus>, i: nat, j: nat)
    requires IsRun(p)
    requires i <= j < |p|
    ensures Rank(p[i]) + (j - i) <= Rank(p[j])
    decreases j - i
  {
    if i < j {
      RunClimbs(p, i + 1, j);
      assert CanTransition(p[i], p[i + 1]);
      EdgesClimb(p[i], p[i + 1]);
    }
  }

  /** No run revisits a status, and every run has at most six statuses (five
      transitions), so the lifecycle always ends. */
  lemma RunsAreShortAndAcyclic(p: seq<OrderStatus>)
    requires IsRun(p)
    ensures forall i, j :: 0 <= i < j < |p| ==> p[i] != p[j]
    ensures |p| <= 6
  {
    forall i, j | 0 <= i < j < |p|
      ensures p[i] != p[j]
    {
      RunClimbs(p, i, j);
    }
    if |p| > 0 {
      RunClimbs(p, 0, |p| - 1);
    }
  }
}
