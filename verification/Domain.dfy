/** Shared option type and the platform's state-transition tables. */
module Domain {

  datatype Option<+T> = None | Some(value: T)

  function Somes<T>(xs: seq<T>): (r: seq<Option<T>>)
    ensures |r| == |xs| && forall i :: 0 <= i < |r| ==> r[i] == Some(xs[i])
  {
    seq(|xs|, i requires 0 <= i < |xs| => Some(xs[i]))
  }

  predicate AllSome<T>(xs: seq<Option<T>>) {
    forall i :: 0 <= i < |xs| ==> xs[i].Some?
  }

  function Values<T>(xs: seq<Option<T>>): (r: seq<T>)
    requires AllSome(xs)
    ensures Somes(r) == xs
  {
    if xs == [] then [] else [xs[0].value] + Values(xs[1..])
  }

  // ---------------------------------------------------------------- deployments

  datatype DeploymentState =
    | Queued | Pulling | Starting | Checking | Switching | Succeeded | RollingBack | Failed

  predicate Terminal(s: DeploymentState) {
    s == Succeeded || s == Failed
  }

  /** The table every committed deployment step is validated against. */
  predicate DeploymentEdge(from: DeploymentState, to: DeploymentState) {
    match from
    case Queued => to in {Pulling, Failed}
    case Pulling => to in {Starting, RollingBack, Failed}
    case Starting => to in {Checking, RollingBack, Failed}
    case Checking => to in {Checking, Switching, RollingBack, Failed}
    case Switching => to in {Succeeded, RollingBack}
    case RollingBack => to == Failed
    case Succeeded => false
    case Failed => false
  }

  /** The transitions the database trigger on deployment_jobs lets through. */
  predicate TriggerAllows(from: DeploymentState, to: DeploymentState) {
    || from == to
    || (from == Queued && to == Pulling)
    || (from == Pulling && to in {Starting, RollingBack})
    || (from == Starting && to in {Checking, RollingBack})
    || (from == Checking && to in {Switching, RollingBack})
    || (from == Switching && to in {Succeeded, RollingBack})
    || (!Terminal(from) && to == Failed)
  }

  // ---------------------------------------------------------------- payments

  datatype OrderState = Pending | Paid | Closed | Refunding | Refunded

  predicate OrderEdge(from: OrderState, to: OrderState) {
    match from
    case Pending => to in {Paid, Closed}
    case Paid => to == Refunding
    case Refunding => to in {Refunded, Paid}
    case Closed => false
    case Refunded => false
  }

  datatype RefundState = RefundProcessing | RefundSucceeded | RefundFailed

  predicate RefundEdge(from: RefundState, to: RefundState) {
    from == RefundProcessing && to in {RefundSucceeded, RefundFailed}
  }
}
