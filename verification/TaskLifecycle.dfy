/** The lifecycle graph of a task (internal/task/status.go). */
module TaskLifecycle {
  datatype Status =
    | Pending | Ready | Running | Verifying | Succeeded | Failed | Cancelled | WaitingApproval

  function Transitions(s: Status): set<Status> {
    match s
    case Pending => {Ready, WaitingApproval, Cancelled}
    case Ready => {Running, WaitingApproval, Cancelled}
    case WaitingApproval => {Ready, Failed, Cancelled}
    case Running => {Verifying, Ready, Failed, Cancelled}
    case Verifying => {Succeeded, Ready, Failed, Cancelled}
    case Succeeded => {}
    case Failed => {}
    case Cancelled => {}
  }

  predicate CanTransitionTo(s: Status, next: Status) { next in Transitions(s) }

  predicate Terminal(s: Status) { Transitions(s) == {} }

  predicate Active(s: Status) { s == Running || s == Verifying }

  /** A walk along the graph. */
  predicate Path(p: seq<Status>) {
    p != [] && forall i :: 0 <= i < |p| - 1 ==> CanTransitionTo(p[i], p[i + 1])
  }

  lemma PathJoin(p: seq<Status>, q: seq<Status>)
    requires Path(p) && Path([p[|p| - 1]] + q)
    ensures Path(p + q)
  {
    var r, s := p + q, [p[|p| - 1]] + q;
    forall i | 0 <= i < |r| - 1 ensures CanTransitionTo(r[i], r[i + 1]) {
      if i >= |p| - 1 {
        var k := i - (|p| - 1);
        assert s[k] == r[i] && s[k + 1] == r[i + 1];
      }
    }
  }

  /** On any walk: a terminal status is only ever the last, success comes straight from VERIFYING
      and that from RUNNING and that from READY, and no retry changes this. */
  lemma PathFacts(p: seq<Status>, i: nat)
    requires Path(p) && i < |p|
    ensures Terminal(p[i]) ==> i == |p| - 1
    ensures i >= 1 && p[i] == Succeeded ==> p[i - 1] == Verifying
    ensures i >= 1 && p[i] == Verifying ==> p[i - 1] == Running
    ensures i >= 1 && p[i] == Running ==> p[i - 1] == Ready
    ensures i >= 3 && p[i] == Succeeded ==> p[i - 3..i] == [Ready, Running, Verifying]
  {
    assert i >= 1 ==> CanTransitionTo(p[i - 1], p[i]);
    assert i >= 2 ==> CanTransitionTo(p[i - 2], p[i - 1]);
    assert i >= 3 ==> CanTransitionTo(p[i - 3], p[i - 2]);
    assert i < |p| - 1 ==> CanTransitionTo(p[i], p[i + 1]);
  }
}
