/**
 Restarting a task when its configuration changes: the filter of equal values, the run loop and
 the functions it runs, step by step in any interleaving.
 */
module Restart {

  /** The filter: waiting for a value, holding one to pass on, or gone (with what it still held). */
  datatype Filter<T> = Receiving | Sending | Quit(held: seq<T>)

  /** The loop: selecting, or on its way to start a task for `cfg`, or gone (with what it still held). */
  datatype Loop<T> =
    | Selecting
    | Cancelling(cfg: T)
    | Waiting(cfg: T)
    | Starting(cfg: T)
    | Returned(held: seq<T>)

  /** A task function: executing, returned with its result not yet taken, or taken. */
  datatype Phase = Executing | Finished | Taken

  datatype Task<T> = Task(cfg: T, cancelled: bool, phase: Phase)

  datatype State<T> = State(
    inputs: seq<T>, last: T, filter: Filter<T>, loop: Loop<T>, tasks: seq<Task<T>>, contextDone: bool)

  datatype Step<T> =
    | CancelContext
    | Receive(value: T)
    | SourceClosed
    | FilterSeesDone
    | HandOver
    | CancelPrevious
    | NothingToWaitFor
    | PreviousReturned
    | WaitFails
    | StartTask
    | TaskReturns(task: nat)
    | TaskQuits
    | LoopSeesDone

  function Init<T>(zero: T): State<T> {
    State([], zero, Receiving, Selecting, [], false)
  }

  function Last<T>(s: State<T>): Task<T>
    requires s.tasks != []
  {
    s.tasks[|s.tasks| - 1]
  }

  function SetLast<T>(s: State<T>, t: Task<T>): State<T>
    requires s.tasks != []
  {
    s.(tasks := s.tasks[|s.tasks| - 1 := t])
  }

  predicate Enabled<T>(s: State<T>, step: Step<T>) {
    match step
    case CancelContext => true
    case Receive(_) => s.filter.Receiving?
    case SourceClosed => s.filter.Receiving?
    case FilterSeesDone => s.contextDone && !s.filter.Quit?
    case HandOver => s.filter.Sending? && s.loop.Selecting?
    case CancelPrevious => s.loop.Cancelling?
    case NothingToWaitFor => s.loop.Waiting? && s.tasks == []
    case PreviousReturned => s.loop.Waiting? && s.tasks != [] && Last(s).phase.Finished?
    case WaitFails => s.loop.Waiting? && s.tasks != []
    case StartTask => s.loop.Starting?
    case TaskReturns(k) => k < |s.tasks| && s.tasks[k].phase.Executing?
    case TaskQuits => s.loop.Selecting? && s.tasks != [] && Last(s).phase.Finished?
    case LoopSeesDone => s.loop.Selecting? && s.contextDone
  }

  function Next<T>(s: State<T>, step: Step<T>, equal: (T, T) -> bool): State<T>
    requires Enabled(s, step)
  {
    match step
    case CancelContext => s.(contextDone := true)
    case Receive(v) =>
      if equal(s.last, v) then s.(inputs := s.inputs + [v])
      else s.(inputs := s.inputs + [v], last := v, filter := Sending)
    case SourceClosed => s.(filter := Quit([]))
    case FilterSeesDone => s.(filter := Quit(if s.filter.Sending? then [s.last] else []))
    case HandOver => s.(filter := Receiving, loop := Cancelling(s.last))
    case CancelPrevious =>
      var t := if s.tasks == [] then s else SetLast(s, Last(s).(cancelled := true));
      t.(loop := Waiting(s.loop.cfg))
    case NothingToWaitFor => s.(loop := Starting(s.loop.cfg))
    case PreviousReturned => SetLast(s, Last(s).(phase := Taken)).(loop := Starting(s.loop.cfg))
    case WaitFails => s.(loop := Returned([s.loop.cfg]))
    case StartTask => s.(tasks := s.tasks + [Task(s.loop.cfg, false, Executing)], loop := Selecting)
    case TaskReturns(k) => s.(tasks := s.tasks[k := s.tasks[k].(phase := Finished)])
    case TaskQuits => SetLast(s, Last(s).(phase := Taken)).(loop := Returned([]))
    case LoopSeesDone => s.(loop := Returned([]))
  }

  // ----- the invariant -----

  /** The inputs with every value dropped that equals the one kept before it, the first compared to `zero`. */
  ghost function Changes<T>(zero: T, inputs: seq<T>, equal: (T, T) -> bool): seq<T> {
    if inputs == [] then []
    else
      var n := |inputs| - 1;
      var kept := Changes(zero, inputs[..n], equal);
      if equal(Newest(zero, kept), inputs[n]) then kept else kept + [inputs[n]]
  }

  ghost function Newest<T>(zero: T, kept: seq<T>): T {
    if kept == [] then zero else kept[|kept| - 1]
  }

  ghost function Configs<T>(tasks: seq<Task<T>>): (r: seq<T>)
    ensures |r| == |tasks| && forall i :: 0 <= i < |tasks| ==> r[i] == tasks[i].cfg
  {
    seq(|tasks|, i requires 0 <= i < |tasks| => tasks[i].cfg)
  }

  /** What the loop, and after it the filter, holds and has not started. */
  ghost function Held<T>(s: State<T>): seq<T> {
    (match s.loop
     case Selecting => []
     case Cancelling(cfg) => [cfg]
     case Waiting(cfg) => [cfg]
     case Starting(cfg) => [cfg]
     case Returned(held) => held)
    + (match s.filter
       case Receiving => []
       case Sending => [s.last]
       case Quit(held) => held)
  }

  /** Every task but the last was cancelled and has returned, and so has the last before another starts. */
  ghost predicate Serial<T>(s: State<T>) {
    && (forall k :: 0 <= k < |s.tasks| - 1 ==> s.tasks[k].cancelled && s.tasks[k].phase.Taken?)
    && (s.loop.Waiting? && s.tasks != [] ==> Last(s).cancelled)
    && (s.loop.Starting? && s.tasks != [] ==> Last(s).cancelled && Last(s).phase.Taken?)
  }

  /** What was started, followed by what is held, are the changes of the input. */
  ghost predicate Faithful<T>(s: State<T>, zero: T, equal: (T, T) -> bool) {
    && Configs(s.tasks) + Held(s) == Changes(zero, s.inputs, equal)
    && (!s.filter.Quit? ==> s.last == Newest(zero, Changes(zero, s.inputs, equal)))
  }

  ghost predicate Inv<T>(s: State<T>, zero: T, equal: (T, T) -> bool) {
    Serial(s) && Faithful(s, zero, equal)
  }

  lemma SerialStep<T>(s: State<T>, step: Step<T>, equal: (T, T) -> bool)
    requires Serial(s) && Enabled(s, step)
    ensures Serial(Next(s, step, equal))
  {
  }

  lemma ReceiveIsFaithful<T>(s: State<T>, v: T, zero: T, equal: (T, T) -> bool)
    requires Faithful(s, zero, equal) && s.filter.Receiving?
    ensures Faithful(Next(s, Receive(v), equal), zero, equal)
  {
    var t := Next(s, Receive(v), equal);
    ChangesNext(zero, s.inputs, v, equal);
    if !equal(s.last, v) {
      HeldMore(s, t, v);
      Associative(Configs(s.tasks), Held(s), [v]);
    }
  }

  lemma ChangesNext<T>(zero: T, inputs: seq<T>, v: T, equal: (T, T) -> bool)
    ensures var kept := Changes(zero, inputs, equal);
            Changes(zero, inputs + [v], equal) == if equal(Newest(zero, kept), v) then kept else kept + [v]
  {
    assert (inputs + [v])[..|inputs|] == inputs;
  }

  lemma HeldMore<T>(s: State<T>, t: State<T>, v: T)
    requires s.filter.Receiving? && t == s.(inputs := t.inputs, last := v, filter := Sending)
    ensures Held(t) == Held(s) + [v]
  {
  }

  lemma Associative<T>(a: seq<T>, b: seq<T>, c: seq<T>)
    ensures a + (b + c) == (a + b) + c
  {
  }

  lemma StartIsFaithful<T>(s: State<T>, zero: T, equal: (T, T) -> bool)
    requires Faithful(s, zero, equal) && s.loop.Starting?
    ensures Faithful(Next(s, StartTask, equal), zero, equal)
  {
    var t := Next(s, StartTask, equal);
    assert Configs(t.tasks) == Configs(s.tasks) + [s.loop.cfg];
    assert Held(s) == [s.loop.cfg] + Held(t);
    Associative(Configs(s.tasks), [s.loop.cfg], Held(t));
  }

  /** A step that neither receives nor starts keeps the configurations of the tasks. */
  lemma SameConfigs<T>(s: State<T>, step: Step<T>, equal: (T, T) -> bool)
    requires Enabled(s, step) && !step.StartTask?
    ensures Configs(Next(s, step, equal).tasks) == Configs(s.tasks)
  {
  }

  /** A step that neither receives nor starts only passes on what is held. */
  lemma SameHeld<T>(s: State<T>, step: Step<T>, equal: (T, T) -> bool)
    requires Enabled(s, step) && !step.StartTask? && !step.Receive?
    ensures Held(Next(s, step, equal)) == Held(s)
  {
  }

  lemma StepHolds<T>(s: State<T>, step: Step<T>, zero: T, equal: (T, T) -> bool)
    requires Inv(s, zero, equal) && Enabled(s, step)
    ensures Inv(Next(s, step, equal), zero, equal)
  {
    SerialStep(s, step, equal);
    match step
    case Receive(v) => ReceiveIsFaithful(s, v, zero, equal);
    case StartTask => StartIsFaithful(s, zero, equal);
    case _ =>
      SameConfigs(s, step, equal);
      SameHeld(s, step, equal);
  }

  // ----- every run -----

  ghost predicate IsRun<T>(states: seq<State<T>>, steps: seq<Step<T>>, zero: T, equal: (T, T) -> bool) {
    && |states| == |steps| + 1
    && states[0] == Init(zero)
    && forall i :: 0 <= i < |steps| ==>
         Enabled(states[i], steps[i]) && states[i + 1] == Next(states[i], steps[i], equal)
  }

  lemma {:induction false} RunHolds<T>(
    states: seq<State<T>>, steps: seq<Step<T>>, zero: T, equal: (T, T) -> bool, i: nat)
    requires IsRun(states, steps, zero, equal) && i < |states|
    ensures Inv(states[i], zero, equal)
  {
    if i > 0 {
      RunHolds(states, steps, zero, equal, i - 1);
      StepHolds(states[i - 1], steps[i - 1], zero, equal);
    }
  }

  /** In every state of every run at most one task function executes. */
  lemma AtMostOneExecutes<T>(
    states: seq<State<T>>, steps: seq<Step<T>>, zero: T, equal: (T, T) -> bool, i: nat, a: nat, b: nat)
    requires IsRun(states, steps, zero, equal) && i < |states|
    requires a < |states[i].tasks| && b < |states[i].tasks|
    requires states[i].tasks[a].phase.Executing? && states[i].tasks[b].phase.Executing?
    ensures a == b
  {
    RunHolds(states, steps, zero, equal, i);
  }

  /** A task is started only when every earlier one was cancelled and has returned. */
  lemma StartsAfterPrevious<T>(
    states: seq<State<T>>, steps: seq<Step<T>>, zero: T, equal: (T, T) -> bool, i: nat, k: nat)
    requires IsRun(states, steps, zero, equal) && i < |steps|
    requires |states[i].tasks| < |states[i + 1].tasks| && k < |states[i].tasks|
    ensures states[i].tasks[k].cancelled && states[i].tasks[k].phase.Taken?
  {
    RunHolds(states, steps, zero, equal, i);
  }

  /** The started configurations are, in order, a prefix of the input changes. */
  lemma StartsChangesInOrder<T>(
    states: seq<State<T>>, steps: seq<Step<T>>, zero: T, equal: (T, T) -> bool, i: nat)
    requires IsRun(states, steps, zero, equal) && i < |states|
    ensures Configs(states[i].tasks) <= Changes(zero, states[i].inputs, equal)
  {
    RunHolds(states, steps, zero, equal, i);
  }

  /** Whenever the filter is waiting for input and the loop is selecting, every change was started. */
  lemma NoChangeIsLost<T>(
    states: seq<State<T>>, steps: seq<Step<T>>, zero: T, equal: (T, T) -> bool, i: nat)
    requires IsRun(states, steps, zero, equal) && i < |states|
    requires states[i].loop.Selecting? && states[i].filter.Receiving?
    ensures Configs(states[i].tasks) == Changes(zero, states[i].inputs, equal)
  {
    RunHolds(states, steps, zero, equal, i);
  }
}
