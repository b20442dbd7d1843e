/** The order status graph: which status may follow which. */
module OrderLifecycle {
  import opened Common

  datatype Status = Pending | Paid | Expired | Canceled | Review

  datatype InvalidTransition = InvalidTransition(current: Status, target: Status)

  function ValidTransitions(current: Status): set<Status> {
    match current
    case Pending => {Paid, Review, Expired, Canceled}
    case Review => {Paid, Canceled}
    case Paid => {}
    case Expired => {}
    case Canceled => {}
  }

  predicate CanTransition(current: Status, target: Status) {
    target in ValidTransitions(current)
  }

  function Transition(current: Status, target: Status): Result<Status, InvalidTransition> {
    if CanTransition(current, target) then Ok(target) else Err(InvalidTransition(current, target))
  }

  predicate Terminal(s: Status) {
    s.Paid? || s.Expired? || s.Canceled?
  }

  /** What waits or is under review can be paid or canceled; only what waits can expire or go to review. */
  lemma MovesOpen(current: Status, target: Status)
    ensures Transition(current, target).Ok? <==>
            ((current == Pending || current == Review) && (target == Paid || target == Canceled))
            || (current == Pending && (target == Expired || target == Review))
  {
  }

  /** The statuses along a chain of accepted transitions starting at `s`. */
  ghost predicate Chain(s: Status, path: seq<Status>)
    decreases |path|
  {
    path == [] || (Transition(s, path[0]) == Ok(path[0]) && Chain(path[0], path[1..]))
  }

  /** The graph is acyclic with paid, expired and canceled as its only sinks: a status is terminal
      exactly when no chain leaves it, and no chain is longer than two steps. */
  lemma {:induction false} ChainsEnd(s: Status, path: seq<Status>)
    requires Chain(s, path)
    ensures |path| <= 2
    ensures Terminal(s) ==> path == []
    ensures !Terminal(s) ==> exists next :: Chain(s, [next])
    decreases |path|
  {
    if path == [] {
    } else {
      ChainsEnd(path[0], path[1..]);
      if |path| > 1 {
        ChainsEnd(path[1], path[2..]);
        assert path[1..][0] == path[1] && path[1..][1..] == path[2..];
      }
    }
    if !Terminal(s) {
      assert Chain(Paid, []);
      assert [Paid][1..] == [];
      assert Chain(s, [Paid]);
    }
  }
}
