/**
 * The generic, table-driven finite-state machine of src/core/statemachine.ts.
 *
 * A definition maps each state to its outgoing transitions (name to
 * destination, with an optional action) and to its optional `onEnter`,
 * `onExit` and `onEntered` hooks. A machine is built over a subject; the
 * only part of the subject the engine touches is its state field, which
 * the class below holds as `state`.
 */
module StateMachine {
  import opened Wrappers

  /** An entry of a state's `transitions` map: the destination, and whether an `action` is set. */
  datatype TransitionDef<S> = TransitionDef(to: S, hasAction: bool)

  /** A state's entry in the table: its transitions, and which of its hooks are set. */
  datatype StateDef<S, N> = StateDef(
    transitions: map<N, TransitionDef<S>>,
    hasOnEnter: bool,
    hasOnEntered: bool,
    hasOnExit: bool)

  /** `StateMachineDefinition.states`. */
  type Definition<S, N> = map<S, StateDef<S, N>>

  /** The status code a `TransitionError` carries. */
  const TransitionErrorCode: int := 400

  /** Why a `TransitionError` was raised. */
  datatype TransitionFailure<S, N> =
    | UnknownTransition(name: N, current: S)
    | UnknownDestination(destination: S, current: S)

  /**
   * What `actionInfos` can throw: a `TransitionError`, or the `TypeError` of
   * reading `.transitions` from the entry of a current state that the table
   * does not have.
   */
  datatype FsmError<S, N> =
    | TypeError(missingState: S)
    | TransitionError(code: int, failure: TransitionFailure<S, N>)

  /** The four values `actionInfos` returns. */
  datatype ActionInfo<S, N> = ActionInfo(
    currentStateDefinition: StateDef<S, N>,
    destinationTransition: TransitionDef<S>,
    destinationStateDefinition: StateDef<S, N>,
    destinationState: S)

  /** Every destination named in the table is itself a state of the table. */
  ghost predicate WellFormed<S, N>(states: Definition<S, N>) {
    forall s, n :: s in states && n in states[s].transitions ==> states[s].transitions[n].to in states
  }

  /**
   * `actionInfos`: resolve transition `name` from state `current`, or say
   * which of the three lookups failed.
   */
  function ActionInfos<S, N>(states: Definition<S, N>, current: S, name: N): (r: Result<ActionInfo<S, N>, FsmError<S, N>>)
    ensures r.Success? <==>
      current in states && name in states[current].transitions && states[current].transitions[name].to in states
    ensures r.Success? ==>
      && r.value.currentStateDefinition == states[current]
      && r.value.destinationTransition == states[current].transitions[name]
      && r.value.destinationState == states[current].transitions[name].to
      && r.value.destinationStateDefinition == states[r.value.destinationState]
    ensures r == Failure(TypeError(current)) <==> current !in states
    ensures r.Failure? && r.error.TransitionError? ==> r.error.code == TransitionErrorCode
    ensures (r.Failure? && r.error.TransitionError? && r.error.failure.UnknownTransition?) <==>
      current in states && name !in states[current].transitions
    ensures (r.Failure? && r.error.TransitionError? && r.error.failure.UnknownDestination?) <==>
      current in states && name in states[current].transitions && states[current].transitions[name].to !in states
    ensures current in states && r.Failure? ==> r.error.TransitionError?
  {
    if current !in states then
      Failure(TypeError(current))
    else
      var currentStateDefinition := states[current];
      if name !in currentStateDefinition.transitions then
        Failure(TransitionError(TransitionErrorCode, UnknownTransition(name, current)))
      else
        var destinationTransition := currentStateDefinition.transitions[name];
        var destinationState := destinationTransition.to;
        if destinationState !in states then
          Failure(TransitionError(TransitionErrorCode, UnknownDestination(destinationState, current)))
        else
          Success(ActionInfo(currentStateDefinition, destinationTransition, states[destinationState], destinationState))
  }

  /** In a well-formed table, a transition from a known state is possible exactly when its name is listed. */
  lemma WellFormedCanTransit<S, N>(states: Definition<S, N>, current: S, name: N)
    requires WellFormed(states) && current in states
    ensures ActionInfos(states, current, name).Success? <==> name in states[current].transitions
  {
  }

  datatype Hook = Action | OnExit | OnEnter | OnEntered

  /** Position of a hook in the order `transition` runs them. */
  function Rank(h: Hook): nat {
    match h
    case Action => 0
    case OnExit => 1
    case OnEnter => 2
    case OnEntered => 3
  }

  /**
   * One hook invocation: which hook, the state whose hook it is (for an
   * action, the state the transition leaves), and the value of the
   * subject's state field at the moment it ran.
   */
  datatype HookCall<S> = HookCall(hook: Hook, owner: S, observed: S)

  /** The hooks a successful transition from `from` runs, in order. */
  function HooksRun<S, N>(info: ActionInfo<S, N>, from: S): (h: seq<HookCall<S>>)
    ensures |h| == Count(info.destinationTransition.hasAction) + Count(info.currentStateDefinition.hasOnExit)
      + Count(info.destinationStateDefinition.hasOnEnter) + Count(info.destinationStateDefinition.hasOnEntered)
    ensures h == [] <==>
      (!info.destinationTransition.hasAction && !info.currentStateDefinition.hasOnExit
       && !info.destinationStateDefinition.hasOnEnter && !info.destinationStateDefinition.hasOnEntered)
  {
    var to := info.destinationState;
    (if info.destinationTransition.hasAction then [HookCall(Action, from, from)] else [])
    + (if info.currentStateDefinition.hasOnExit then [HookCall(OnExit, from, from)] else [])
    + (if info.destinationStateDefinition.hasOnEnter then [HookCall(OnEnter, to, from)] else [])
    + (if info.destinationStateDefinition.hasOnEntered then [HookCall(OnEntered, to, to)] else [])
  }

  /** 1 for a hook that is defined, 0 for one that is not. */
  function Count(defined: bool): nat {
    if defined then 1 else 0
  }

  /**
   * Each hook runs at most once and in the order action, exit, enter,
   * entered; every hook but `onEntered` sees the old state, `onEntered`
   * sees the new one.
   */
  lemma HookOrder<S, N>(info: ActionInfo<S, N>, from: S)
    ensures var h := HooksRun(info, from);
      && (forall i, j :: 0 <= i < j < |h| ==> Rank(h[i].hook) < Rank(h[j].hook))
      && (forall i :: 0 <= i < |h| ==>
            h[i].observed == (if h[i].hook == OnEntered then info.destinationState else from))
      && (forall i :: 0 <= i < |h| && h[i].hook in {OnEnter, OnEntered} ==> h[i].owner == info.destinationState)
      && (forall i :: 0 <= i < |h| && h[i].hook in {Action, OnExit} ==> h[i].owner == from)
  {
  }

  /** A hook runs exactly when the table sets it. */
  lemma HookPresence<S, N>(info: ActionInfo<S, N>, from: S)
    ensures var h := HooksRun(info, from);
      && ((exists i :: 0 <= i < |h| && h[i].hook == Action) <==> info.destinationTransition.hasAction)
      && ((exists i :: 0 <= i < |h| && h[i].hook == OnExit) <==> info.currentStateDefinition.hasOnExit)
      && ((exists i :: 0 <= i < |h| && h[i].hook == OnEnter) <==> info.destinationStateDefinition.hasOnEnter)
      && ((exists i :: 0 <= i < |h| && h[i].hook == OnEntered) <==> info.destinationStateDefinition.hasOnEntered)
  {
    var to := info.destinationState;
    var a := if info.destinationTransition.hasAction then [HookCall(Action, from, from)] else [];
    var x := if info.currentStateDefinition.hasOnExit then [HookCall(OnExit, from, from)] else [];
    var e := if info.destinationStateDefinition.hasOnEnter then [HookCall(OnEnter, to, from)] else [];
    var d := if info.destinationStateDefinition.hasOnEntered then [HookCall(OnEntered, to, to)] else [];
    var h := HooksRun(info, from);
    assert h == a + x + e + d;
    forall i | 0 <= i < |h|
      ensures h[i].hook == Action ==> info.destinationTransition.hasAction
      ensures h[i].hook == OnExit ==> info.currentStateDefinition.hasOnExit
      ensures h[i].hook == OnEnter ==> info.destinationStateDefinition.hasOnEnter
      ensures h[i].hook == OnEntered ==> info.destinationStateDefinition.hasOnEntered
    {
    }
    if info.destinationTransition.hasAction {
      assert h[0].hook == Action;
    }
    if info.currentStateDefinition.hasOnExit {
      assert h[|a|].hook == OnExit;
    }
    if info.destinationStateDefinition.hasOnEnter {
      assert h[|a| + |x|].hook == OnEnter;
    }
    if info.destinationStateDefinition.hasOnEntered {
      assert h[|h| - 1].hook == OnEntered;
    }
  }

  /**
   * The object `createStateMachine` returns, over one subject. `state` is
   * the subject's state field (`subject[stateProperty]`); `hooks` records
   * the hook calls made so far.
   */
  class Machine<S(==), N(==)> {
    var state: S
    const states: Definition<S, N>
    ghost var hooks: seq<HookCall<S>>

    constructor (subjectState: S, definition: Definition<S, N>)
      ensures state == subjectState && states == definition && hooks == []
    {
      state := subjectState;
      states := definition;
      hooks := [];
    }

    /** `canTransit`: a side-effect-free probe that turns every failure of `actionInfos` into false. */
    function CanTransit(name: N): (ok: bool)
      reads this
      ensures ok <==>
        state in states && name in states[state].transitions && states[state].transitions[name].to in states
    {
      ActionInfos(states, state, name).Success?
    }

    /**
     * `transition`: validate fully, then run the transition's action, the
     * current state's `onExit`, the destination's `onEnter`, write the
     * state field, and run the destination's `onEntered`.
     */
    method Transition(name: N) returns (outcome: Outcome<FsmError<S, N>>)
      modifies this`state, this`hooks
      ensures outcome.Pass? <==> old(CanTransit(name))
      ensures outcome.Fail? ==>
        && outcome.error == ActionInfos(states, old(state), name).error
        && state == old(state) && hooks == old(hooks)
      ensures outcome.Pass? ==>
        && state == states[old(state)].transitions[name].to
        && hooks == old(hooks) + HooksRun(ActionInfos(states, old(state), name).value, old(state))
    {
      var infos := ActionInfos(states, state, name);
      if infos.Failure? {
        return Fail(infos.error);
      }
      var info := infos.value;
      if info.destinationTransition.hasAction {
        hooks := hooks + [HookCall(Action, state, state)];
      }
      if info.currentStateDefinition.hasOnExit {
        hooks := hooks + [HookCall(OnExit, state, state)];
      }
      if info.destinationStateDefinition.hasOnEnter {
        hooks := hooks + [HookCall(OnEnter, info.destinationState, state)];
      }
      state := info.destinationState;
      if info.destinationStateDefinition.hasOnEntered {
        hooks := hooks + [HookCall(OnEntered, info.destinationState, state)];
      }
      outcome := Pass;
    }
  }
}
