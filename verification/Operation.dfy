/**
 A restartable background operation: starting a function cancels the one before it, and only the
 latest function since the last reset is reported on.
 */
module Operation {
  import opened Options

  /** A started function: whether its context was cancelled, and the result it stored, if any. */
  datatype Task = Task(cancelled: bool, result: Option<Option<string>>)

  /**
   `current` is what the cancel function and the wait group of the operation belong to; `stopping`
   holds what some call of Stop has read.
   */
  datatype State = State(tasks: seq<Task>, current: Option<nat>, stopping: set<nat>)

  /** Stop reads the current function under the lock, and cancels what it read after unlocking. */
  datatype Step =
    | Start
    | Reset
    | StopNow
    | StopReads
    | StopCancels(task: nat)
    | Completes(task: nat, err: Option<string>)

  function Init(): State {
    State([], None, {})
  }

  predicate Enabled(s: State, step: Step) {
    match step
    case StopCancels(k) => k in s.stopping && k < |s.tasks|
    case Completes(k, _) => k < |s.tasks| && s.tasks[k].result.None?
    case _ => true
  }

  function Cancel(s: State, k: nat): State {
    if k < |s.tasks| then s.(tasks := s.tasks[k := s.tasks[k].(cancelled := true)]) else s
  }

  function CancelCurrent(s: State): State {
    if s.current.Some? then Cancel(s, s.current.value) else s
  }

  function Next(s: State, step: Step): State
    requires Enabled(s, step)
  {
    match step
    case Start =>
      var t := CancelCurrent(s);
      t.(tasks := t.tasks + [Task(false, None)], current := Some(|t.tasks|))
    case Reset => CancelCurrent(s).(current := None)
    case StopNow => CancelCurrent(s)
    case StopReads => if s.current.Some? then s.(stopping := s.stopping + {s.current.value}) else s
    case StopCancels(k) => Cancel(s, k)
    case Completes(k, err) => s.(tasks := s.tasks[k := s.tasks[k].(result := Some(err))])
  }

  predicate Active(s: State) {
    s.current.Some? && s.current.value < |s.tasks| && s.tasks[s.current.value].result.None?
  }

  function Error(s: State): Option<string> {
    if s.current.Some? && s.current.value < |s.tasks| && s.tasks[s.current.value].result.Some?
    then s.tasks[s.current.value].result.value else None
  }

  // ----- what the steps alone say -----

  ghost function Starts(steps: seq<Step>): nat {
    if steps == [] then 0 else Starts(steps[..|steps| - 1]) + if steps[|steps| - 1].Start? then 1 else 0
  }

  /** The function started last, unless there was a reset since. */
  ghost function LatestStart(steps: seq<Step>): Option<nat> {
    if steps == [] then None
    else
      var init := steps[..|steps| - 1];
      match steps[|steps| - 1]
      case Start => Some(Starts(init))
      case Reset => None
      case _ => LatestStart(init)
  }

  /** The result function `k` stored, if it completed. */
  ghost function ResultOf(steps: seq<Step>, k: nat): Option<Option<string>> {
    if steps == [] then None
    else
      match steps[|steps| - 1]
      case Completes(j, err) => if j == k then Some(err) else ResultOf(steps[..|steps| - 1], k)
      case _ => ResultOf(steps[..|steps| - 1], k)
  }

  ghost predicate IsRun(states: seq<State>, steps: seq<Step>) {
    && |states| == |steps| + 1
    && states[0] == Init()
    && forall i :: 0 <= i < |steps| ==> Enabled(states[i], steps[i]) && states[i + 1] == Next(states[i], steps[i])
  }

  ghost predicate Inv(steps: seq<Step>, s: State) {
    && |s.tasks| == Starts(steps)
    && s.current == LatestStart(steps)
    && (s.current.Some? ==> s.current.value == |s.tasks| - 1)
    && (forall k :: 0 <= k < |s.tasks| && s.current != Some(k) ==> s.tasks[k].cancelled)
    && (forall k :: 0 <= k < |s.tasks| ==> s.tasks[k].result == ResultOf(steps, k))
    && (forall k :: |s.tasks| <= k ==> ResultOf(steps, k).None?)
  }

  lemma StepHolds(steps: seq<Step>, s: State, step: Step)
    requires Inv(steps, s) && Enabled(s, step)
    ensures Inv(steps + [step], Next(s, step))
  {
  }

  lemma {:induction false} RunHolds(states: seq<State>, steps: seq<Step>, i: nat)
    requires IsRun(states, steps) && i < |states|
    ensures Inv(steps[..i], states[i])
  {
    if i > 0 {
      RunHolds(states, steps, i - 1);
      StepHolds(steps[..i - 1], states[i - 1], steps[i - 1]);
      assert steps[..i - 1] + [steps[i - 1]] == steps[..i];
    }
  }

  /** In every interleaving, every started function but the current one has been cancelled. */
  lemma OthersAreCancelled(states: seq<State>, steps: seq<Step>, i: nat, k: nat)
    requires IsRun(states, steps) && i < |states|
    requires k < Starts(steps[..i]) && LatestStart(steps[..i]) != Some(k)
    ensures k < |states[i].tasks| && states[i].tasks[k].cancelled
  {
    RunHolds(states, steps, i);
  }

  /** Error and Active speak of the function started last since the last reset, and of no other. */
  lemma ReportsLatestOnly(states: seq<State>, steps: seq<Step>, i: nat)
    requires IsRun(states, steps) && i < |states|
    ensures var latest := LatestStart(steps[..i]);
            && (Active(states[i]) <==> latest.Some? && ResultOf(steps[..i], latest.value).None?)
            && Error(states[i]) == if latest.Some? && ResultOf(steps[..i], latest.value).Some?
                                   then ResultOf(steps[..i], latest.value).value else None
  {
    RunHolds(states, steps, i);
  }
}
