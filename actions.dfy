/** Rollover actions: the run-once state machine every action shares, and the
    composite action that executes a list of actions. */
module Actions {
  import opened Common

  /** What one `execute` call of an action does: returns a status or throws
      an `IOException`. */
  datatype Outcome = Returned(ok: bool) | Threw

  /** `AbstractAction`: `run` executes the action at most once; `close`
      prevents any later execution. */
  class AbstractAction {
    var complete: bool
    var interrupted: bool
    /** How many times `execute` has been called. */
    var executions: nat
    /** How many errors were reported to the exception handler. */
    var reported: nat

    constructor ()
      ensures !complete && !interrupted && executions == 0 && reported == 0
    {
      complete := false;
      interrupted := false;
      executions := 0;
      reported := 0;
    }

    /** `run`, where `outcome` is what `execute` does this time. */
    method Run(outcome: Outcome)
      modifies this
      ensures old(interrupted) ==>
        complete == old(complete) && interrupted && executions == old(executions) && reported == old(reported)
      ensures !old(interrupted) ==>
        complete && interrupted && executions == old(executions) + 1 &&
        reported == old(reported) + (if outcome.Threw? then 1 else 0)
    {
      if !interrupted {
        executions := executions + 1;
        if outcome.Threw? {
          reported := reported + 1;
        }
        complete := true;
        interrupted := true;
      }
    }

    /** `close`: no later `run` executes the action. */
    method Close()
      modifies this
      ensures interrupted
      ensures complete == old(complete) && executions == old(executions) && reported == old(reported)
    {
      interrupted := true;
    }

    /** `isComplete`. */
    function IsComplete(): bool
      reads this
    {
      complete
    }
  }

  /** Running an action twice executes it at most once, whatever each run would do. */
  method RunTwice(a: AbstractAction, first: Outcome, second: Outcome)
    modifies a
    ensures a.executions <= old(a.executions) + 1
    ensures !old(a.interrupted) ==> a.IsComplete() && a.executions == old(a.executions) + 1
  {
    a.Run(first);
    a.Run(second);
  }

  /** Closing before running means the action never executes. */
  method CloseThenRun(a: AbstractAction, outcome: Outcome)
    modifies a
    ensures a.executions == old(a.executions) && a.IsComplete() == old(a.IsComplete())
  {
    a.Close();
    a.Run(outcome);
  }

  /** How `CompositeAction.execute` ends: with a status, or by throwing the
      exception of the action at index `at`. */
  datatype Execution = Done(ok: bool) | Raised(at: nat)

  predicate AllSucceed(outcomes: seq<Outcome>)
  {
    forall j :: 0 <= j < |outcomes| ==> outcomes[j] == Returned(true)
  }

  /** The first action that throws, if any. */
  function FirstThrow(outcomes: seq<Outcome>): (r: Option<nat>)
    ensures r.None? <==> forall j :: 0 <= j < |outcomes| ==> !outcomes[j].Threw?
    ensures r.Some? ==> r.value < |outcomes| && outcomes[r.value].Threw? &&
                        forall j :: 0 <= j < r.value ==> !outcomes[j].Threw?
  {
    if |outcomes| == 0 then None
    else if outcomes[0].Threw? then Some(0)
    else
      match FirstThrow(outcomes[1..])
      case None => None
      case Some(k) => Some(k + 1)
  }

  /** `execute` with `stopOnError`: the actions run in order until one
      returns false or throws. Answers the execution and how many actions ran. */
  function StopOnError(outcomes: seq<Outcome>, i: nat): (r: (Execution, nat))
    requires i <= |outcomes|
    ensures i <= r.1 <= |outcomes|
    ensures r.0 == Done(true) <==> r.1 == |outcomes| && forall j :: i <= j < |outcomes| ==> outcomes[j] == Returned(true)
    ensures r.0 != Done(true) ==> i < r.1 && forall j :: i <= j < r.1 - 1 ==> outcomes[j] == Returned(true)
    ensures r.0 == Done(false) ==> outcomes[r.1 - 1] == Returned(false)
    ensures r.0.Raised? ==> r.0.at == r.1 - 1 && outcomes[r.0.at].Threw?
    decreases |outcomes| - i
  {
    if i == |outcomes| then (Done(true), i)
    else
      match outcomes[i]
      case Returned(ok) => if ok then StopOnError(outcomes, i + 1) else (Done(false), i + 1)
      case Threw => (Raised(i), i + 1)
  }

  /** `execute` without `stopOnError`: every action runs; the first exception
      is rethrown at the end, otherwise the status is the AND of all results. */
  function CollectAll(outcomes: seq<Outcome>): (Execution, nat)
  {
    match FirstThrow(outcomes)
    case Some(k) => (Raised(k), |outcomes|)
    case None => (Done(AllSucceed(outcomes)), |outcomes|)
  }

  function ExecuteSpec(outcomes: seq<Outcome>, stopOnError: bool): (Execution, nat)
  {
    if stopOnError then StopOnError(outcomes, 0) else CollectAll(outcomes)
  }

  /** `CompositeAction.execute`, where `outcomes[k]` is what the `k`-th action
      does; answers the execution and how many actions ran. */
  method Execute(outcomes: seq<Outcome>, stopOnError: bool) returns (r: Execution, ran: nat)
    ensures (r, ran) == ExecuteSpec(outcomes, stopOnError)
  {
    if stopOnError {
      var i := 0;
      while i < |outcomes|
        invariant 0 <= i <= |outcomes|
        invariant StopOnError(outcomes, 0) == StopOnError(outcomes, i)
      {
        match outcomes[i] {
          case Threw =>
            return Raised(i), i + 1;
          case Returned(ok) =>
            if !ok {
              return Done(false), i + 1;
            }
        }
        i := i + 1;
      }
      return Done(true), i;
    }
    var status := true;
    var exception: Option<nat> := None;
    var i := 0;
    while i < |outcomes|
      invariant 0 <= i <= |outcomes|
      invariant status <==> AllSucceed(outcomes[..i])
      invariant exception == FirstThrow(outcomes[..i])
    {
      match outcomes[i] {
        case Returned(ok) =>
          status := status && ok;
        case Threw =>
          status := false;
          if exception.None? {
            exception := Some(i);
          }
      }
      assert outcomes[..i + 1][..i] == outcomes[..i];
      i := i + 1;
    }
    assert outcomes[..i] == outcomes;
    if exception.Some? {
      return Raised(exception.value), i;
    }
    return Done(status), i;
  }

  /** Without `stopOnError` every action runs; the composite throws exactly
      when one of them threw (the first one's exception), and otherwise
      succeeds exactly when all succeeded. */
  lemma CollectAllFacts(outcomes: seq<Outcome>)
    ensures CollectAll(outcomes).1 == |outcomes|
    ensures CollectAll(outcomes).0.Raised? <==> exists j :: 0 <= j < |outcomes| && outcomes[j].Threw?
    ensures CollectAll(outcomes).0.Raised? ==>
      var k := CollectAll(outcomes).0.at;
      k < |outcomes| && outcomes[k].Threw? && forall j :: 0 <= j < k ==> !outcomes[j].Threw?
    ensures CollectAll(outcomes).0.Done? ==> (CollectAll(outcomes).0.ok <==> AllSucceed(outcomes))
  {
  }

  /** `CompositeAction.run`: `execute`, with a thrown exception reported to the
      handler instead of escaping. Answers whether a report was made. */
  method RunComposite(outcomes: seq<Outcome>, stopOnError: bool) returns (reported: bool)
    ensures reported <==> ExecuteSpec(outcomes, stopOnError).0.Raised?
  {
    var r, _ := Execute(outcomes, stopOnError);
    reported := r.Raised?;
  }
}
