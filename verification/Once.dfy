/**
 Running a function once on behalf of any number of callers: the first caller lends its context,
 one receive gets the result, and after that the closed channel answers.
 */
module Once {
  import opened Options

  /** What the runnable returns; no error is `None`. */
  type Outcome = Option<string>

  /** The goroutine: waiting for a context, running, sending its result, result taken, channel closed. */
  datatype Runner =
    | AwaitingContext
    | Running
    | Sending(outcome: Outcome)
    | Sent(outcome: Outcome)
    | Closed(outcome: Outcome)

  /** One call of yield: at its first select, waiting for the result, or returned. */
  datatype Caller =
    | Yielding
    | Waiting
    | GotResult(outcome: Outcome)
    | GotClosed
    | GaveUp

  datatype State = State(runner: Runner, callers: map<nat, Caller>, executions: nat)

  datatype Step =
    | Call(id: nat)
    | LendContext(id: nat)
    | RunnableReturns(outcome: Outcome)
    | TakeResult(id: nat)
    | Close
    | ReadClosed(id: nat)
    | ContextDone(id: nat)

  function Init(): State {
    State(AwaitingContext, map[], 0)
  }

  predicate Pending(s: State, id: nat) {
    id in s.callers && (s.callers[id].Yielding? || s.callers[id].Waiting?)
  }

  predicate Enabled(s: State, step: Step) {
    match step
    case Call(id) => id !in s.callers
    case LendContext(id) => s.runner.AwaitingContext? && id in s.callers && s.callers[id].Yielding?
    case RunnableReturns(_) => s.runner.Running?
    case TakeResult(id) => s.runner.Sending? && Pending(s, id)
    case Close => s.runner.Sent?
    case ReadClosed(id) => s.runner.Closed? && Pending(s, id)
    case ContextDone(id) => Pending(s, id)
  }

  function Next(s: State, step: Step): State
    requires Enabled(s, step)
  {
    match step
    case Call(id) => s.(callers := s.callers[id := Yielding])
    case LendContext(id) =>
      s.(runner := Running, callers := s.callers[id := Waiting], executions := s.executions + 1)
    case RunnableReturns(outcome) => s.(runner := Sending(outcome))
    case TakeResult(id) =>
      s.(runner := Sent(s.runner.outcome), callers := s.callers[id := GotResult(s.runner.outcome)])
    case Close => s.(runner := Closed(s.runner.outcome))
    case ReadClosed(id) => s.(callers := s.callers[id := GotClosed])
    case ContextDone(id) => s.(callers := s.callers[id := GaveUp])
  }

  /** The error a call of yield returned because of the runnable or the channel; `None` is nil. */
  predicate ReturnedNil(c: Caller) {
    c.GotClosed? || (c.GotResult? && c.outcome.None?)
  }

  predicate Completed(r: Runner) {
    r.Sending? || r.Sent? || r.Closed?
  }

  predicate Taken(r: Runner) {
    r.Sent? || r.Closed?
  }

  ghost predicate Inv(s: State) {
    && s.executions == (if s.runner.AwaitingContext? then 0 else 1)
    && (forall id :: id in s.callers && s.callers[id].GotResult? ==>
          Taken(s.runner) && s.callers[id].outcome == s.runner.outcome)
    && (Taken(s.runner) ==> exists id :: id in s.callers && s.callers[id].GotResult?)
    && (forall a, b :: a in s.callers && b in s.callers ==>
          (s.callers[a].GotResult? && s.callers[b].GotResult? ==> a == b))
    && (forall id :: id in s.callers && s.callers[id].GotClosed? ==> s.runner.Closed?)
  }

  lemma StepHolds(s: State, step: Step)
    requires Inv(s) && Enabled(s, step)
    ensures Inv(Next(s, step))
  {
    var t := Next(s, step);
    if Taken(s.runner) {
      var id :| id in s.callers && s.callers[id].GotResult?;
      assert id in t.callers && t.callers[id].GotResult?;
    } else if step.TakeResult? {
      assert t.callers[step.id].GotResult?;
    }
  }

  ghost predicate IsRun(states: seq<State>, steps: seq<Step>) {
    && |states| == |steps| + 1
    && states[0] == Init()
    && forall i :: 0 <= i < |steps| ==> Enabled(states[i], steps[i]) && states[i + 1] == Next(states[i], steps[i])
  }

  lemma {:induction false} RunHolds(states: seq<State>, steps: seq<Step>, i: nat)
    requires IsRun(states, steps) && i < |states|
    ensures Inv(states[i])
  {
    if i > 0 {
      RunHolds(states, steps, i - 1);
      StepHolds(states[i - 1], steps[i - 1]);
    }
  }

  /** In every run the runnable executes at most once, however many callers there are. */
  lemma ExecutesAtMostOnce(states: seq<State>, steps: seq<Step>, i: nat)
    requires IsRun(states, steps) && i < |states|
    ensures states[i].executions <= 1
  {
    RunHolds(states, steps, i);
  }

  /** The runnable's error reaches at most one caller. */
  lemma ErrorReachesOneCaller(states: seq<State>, steps: seq<Step>, i: nat, a: nat, b: nat)
    requires IsRun(states, steps) && i < |states|
    requires a in states[i].callers && states[i].callers[a].GotResult? && states[i].callers[a].outcome.Some?
    requires b in states[i].callers && states[i].callers[b].GotResult? && states[i].callers[b].outcome.Some?
    ensures a == b
  {
    RunHolds(states, steps, i);
  }

  /** A caller gets nil only after the runnable completed without error, or its error went to another caller. */
  lemma NilMeansDone(states: seq<State>, steps: seq<Step>, i: nat, id: nat)
    requires IsRun(states, steps) && i < |states|
    requires id in states[i].callers && ReturnedNil(states[i].callers[id])
    ensures Completed(states[i].runner)
    ensures states[i].runner.outcome.None? ||
            exists other :: other != id && other in states[i].callers
              && states[i].callers[other] == GotResult(states[i].runner.outcome)
  {
    RunHolds(states, steps, i);
    var s := states[i];
    var taker :| taker in s.callers && s.callers[taker].GotResult?;
    assert s.callers[taker] == GotResult(s.runner.outcome);
  }
}
