/** The machines of the repository's test suite, and what the model proves they do. */
module Scenarios {
  import opened Schema
  import opened Transition
  import opened Config
  import opened Machine
  import FsmxJs

  /** The six actions of the test suite's shared machine. */
  function SessionActions(): seq<ActionDecl>
  {
    [ ActionDecl("waitForCmd", Many(["initial", "end", "error"]), "wait"),
      ActionDecl("listenForCmd", Single("wait"), "listen"),
      ActionDecl("collectData", Single("listen"), "calculate"),
      ActionDecl("giveAnswer", Single("calculate"), "speak"),
      ActionDecl("endCmd", Single("speak"), "end"),
      ActionDecl("wrongWay", Single("calculate"), "error") ]
  }

  /** The events object of the shared machine: both hooks present. */
  const BothHooks := Some(Hooks(true, true))

  /** Hooks that return without throwing. */
  const Quiet := HookRun(false, false)

  lemma SessionNamesDistinct()
    ensures DistinctNames(SessionActions())
  {
  }

  /** Invoking action number `a` of the shared machine from a state its `from`
      accepts completes the transition: both hooks run, leave first, and the
      machine ends in the action's `to`. */
  lemma {:induction false} SessionStep(state: string, a: nat)
    requires a < |SessionActions()| && Matches(SessionActions()[a].from, state)
    ensures var act := SessionActions()[a];
            InvokeSpec(SessionActions(), SchemaOf(SessionActions()), BothHooks, state, act.name, Quiet)
            == Step(Done, act.to, [Event(OnLeaveState, act.from, act.to), Event(OnEnterState, act.from, act.to)])
  {
    var actions := SessionActions();
    SessionNamesDistinct();
    InvokeIsTransit(actions, SchemaOf(actions), BothHooks, state, a, Quiet);
    assert EdgeAllows(SchemaOf(actions)[a], state, actions[a].to);
  }

  /** The shared machine: configured as in the test suite, in any state. */
  predicate IsSession(m: Fsmx)
    reads m
  {
    m.actions == SessionActions() && m.schema == SchemaOf(SessionActions()) && m.events == BothHooks
  }

  /** One call of a generated action method on the shared machine. */
  method Fire(m: Fsmx, a: nat)
    requires IsSession(m) && a < |SessionActions()| && Matches(SessionActions()[a].from, m.state)
    modifies m`state, m`trace
    ensures IsSession(m) && m.state == SessionActions()[a].to
  {
    SessionStep(m.state, a);
    var outcome := m.Invoke(SessionActions()[a].name, Quiet);
  }

  /** Builds the shared machine, with both hooks present, and invokes its actions
      in the order of the transition test, recording the state after each call. */
  method DocumentedRun() returns (visited: seq<string>)
    ensures visited == ["wait", "listen", "calculate", "error", "wait",
                        "listen", "calculate", "speak", "end", "wait"]
  {
    SessionNamesDistinct();
    var built := FsmxJs.Construct(Options(Str("initial"), Some(SessionActions()), BothHooks));
    var m := built.value;
    // actions 0..5: waitForCmd, listenForCmd, collectData, giveAnswer, endCmd, wrongWay
    visited := [];
    Fire(m, 0);
    assert m.state == "wait";
    visited := visited + [m.state];
    Fire(m, 1);
    assert m.state == "listen";
    visited := visited + [m.state];
    Fire(m, 2);
    assert m.state == "calculate";
    visited := visited + [m.state];
    Fire(m, 5);
    assert m.state == "error";
    visited := visited + [m.state];
    Fire(m, 0);
    assert m.state == "wait";
    visited := visited + [m.state];
    Fire(m, 1);
    assert m.state == "listen";
    visited := visited + [m.state];
    Fire(m, 2);
    assert m.state == "calculate";
    visited := visited + [m.state];
    Fire(m, 3);
    assert m.state == "speak";
    visited := visited + [m.state];
    Fire(m, 4);
    assert m.state == "end";
    visited := visited + [m.state];
    Fire(m, 0);
    assert m.state == "wait";
    visited := visited + [m.state];
  }

  /** Building the shared machine, moving to `wait`, then resetting twice: each
      reset lands on `initial`. */
  method ResetAfterWait() returns (moved: string, reset: string, resetAgain: string)
    ensures moved == "wait" && reset == "initial" && resetAgain == "initial"
  {
    SessionNamesDistinct();
    var built := FsmxJs.Construct(Options(Str("initial"), Some(SessionActions()), BothHooks));
    var m := built.value;
    Fire(m, 0);
    moved := m.state;
    m.Reset();
    reset := m.state;
    m.Reset();
    resetAgain := m.state;
  }

  /** `transit('kek', 'pek')` on the shared machine: no edge leads to `pek`, so
      the attempt is refused and the state stays `initial`. */
  method RejectedTransit() returns (outcome: Outcome, after: string)
    ensures outcome == CantTransit && after == "initial"
  {
    SessionNamesDistinct();
    var built := FsmxJs.Construct(Options(Str("initial"), Some(SessionActions()), BothHooks));
    var m := built.value;
    outcome := m.Transit(Single("kek"), "pek", Quiet);
    after := m.state;
  }

  /** The two actions of the hook tests. */
  function StartEndActions(): seq<ActionDecl>
  {
    [ ActionDecl("start", Single("initial"), "start"),
      ActionDecl("end", Single("start"), "end") ]
  }

  /** With only a leave hook, `start()` calls it once with `('initial', 'start')`
      and then moves to `start`. */
  lemma LeaveHookArguments(run: HookRun)
    requires !run.leaveThrows
    ensures InvokeSpec(StartEndActions(), SchemaOf(StartEndActions()), Some(Hooks(true, false)),
                       "initial", "start", run)
            == Step(Done, "start", [Event(OnLeaveState, Single("initial"), "start")])
  {
  }

  /** With only an enter hook, `start()` moves to `start` and then calls the hook
      once with `('initial', 'start')`. */
  lemma EnterHookArguments(run: HookRun)
    requires !run.enterThrows
    ensures InvokeSpec(StartEndActions(), SchemaOf(StartEndActions()), Some(Hooks(false, true)),
                       "initial", "start", run)
            == Step(Done, "start", [Event(OnEnterState, Single("initial"), "start")])
  {
  }

  /** The option checks of the test suite: no `initial`, `initial: 123`, and
      `initial: 'foo'` without actions. */
  lemma InitialParamChecks()
    ensures FsmxJs.Check(Options(Missing, None, None)) == Failure(NoInitialState)
    ensures FsmxJs.Check(Options(NonString(true), None, None)) == Failure(InvalidTypeOfState)
    ensures FsmxJs.Check(Options(Str("foo"), None, None)) == Failure(NoActions)
  {
  }
}
