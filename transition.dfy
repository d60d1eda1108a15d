/** The transition protocol of an fsmx machine as a function of its state:
    legality check, leave hook, state update, enter hook. */
module Transition {
  import opened Schema

  /** The two lifecycle hooks a machine may be given. */
  datatype Hook = OnLeaveState | OnEnterState

  /** Which hooks of the `events` object are functions; a hook that is not a function is never called. */
  datatype Hooks = Hooks(onLeave: bool, onEnter: bool)
  {
    predicate Has(h: Hook)
    {
      match h
      case OnLeaveState => onLeave
      case OnEnterState => onEnter
    }
  }

  /** One call of a caller-supplied hook, with the `(from, to)` it was given. */
  datatype Event = Event(hook: Hook, from: From, to: string)

  /** What the caller's hooks do when they are called: return, or throw. */
  datatype HookRun = HookRun(leaveThrows: bool, enterThrows: bool)

  /** What one `emit` did: no hook to call, called it, the hook threw, or there
      was no `events` object at all (reading a hook from it fails). */
  datatype EmitResult = Skipped | Called | Threw | NoEvents

  /** How a transition attempt ends. `CantTransit` is the "Can't transit to target"
      error, `HookThrew` a hook's exception passed on, `EventsUndefined` the
      failure of reading a hook from a missing `events` object, and `NoSuchAction`
      a call of a generated method that was never generated. */
  datatype Outcome = Done | CantTransit | HookThrew(hook: Hook) | EventsUndefined | NoSuchAction

  /** The result of an attempt: how it ended, the state afterwards, the hooks it called. */
  datatype Step = Step(outcome: Outcome, state: string, fired: seq<Event>)

  /** `emit(hook, from, to)`: calls the hook only when it is a function. */
  function EmitSpec(events: Option<Hooks>, hook: Hook, throws: bool): (r: EmitResult)
    ensures r == NoEvents <==> events.None?
    ensures r == Skipped <==> events.Some? && !events.value.Has(hook)
    ensures r == Threw <==> events.Some? && events.value.Has(hook) && throws
    ensures r == Called <==> events.Some? && events.value.Has(hook) && !throws
  {
    match events
    case None => NoEvents
    case Some(h) => if !h.Has(hook) then Skipped else if throws then Threw else Called
  }

  /** The hook call an emit adds to the record: one event when the hook ran, none otherwise. */
  function Fired(e: EmitResult, ev: Event): (r: seq<Event>)
  {
    if e.Called? || e.Threw? then [ev] else []
  }

  /** The hook calls of a transition that completes: leave (if present) then enter (if present). */
  function HookCalls(h: Hooks, from: From, to: string): seq<Event>
  {
    (if h.onLeave then [Event(OnLeaveState, from, to)] else [])
    + (if h.onEnter then [Event(OnEnterState, from, to)] else [])
  }

  /** `transit(from, to)` from `state`: legality is decided by `to` and the current
      state alone; when legal, the leave hook runs, then the state becomes `to`,
      then the enter hook runs; a hook that throws stops the remaining steps. */
  function TransitSpec(schema: seq<Edge>, events: Option<Hooks>, state: string,
                       from: From, to: string, run: HookRun): (r: Step)
    // rejected exactly when no edge allows the move, and then nothing happens
    ensures r.outcome == CantTransit <==> !Allowed(schema, state, to)
    ensures r.outcome == CantTransit ==> r.state == state && r.fired == []
    // the state ends either where it was or at the target
    ensures r.state == state || r.state == to
    ensures r.state != state ==> Allowed(schema, state, to)
    // a completed transition lands on `to` after calling the present hooks, leave first
    ensures r.outcome == Done <==> Allowed(schema, state, to) && events.Some?
                                   && !(events.value.onLeave && run.leaveThrows)
                                   && !(events.value.onEnter && run.enterThrows)
    ensures r.outcome == Done ==> events.Some? && r.state == to && r.fired == HookCalls(events.value, from, to)
    // a throwing leave hook keeps the state; a throwing enter hook comes after the update
    ensures r.outcome == HookThrew(OnLeaveState) ==>
              r.state == state && r.fired == [Event(OnLeaveState, from, to)]
    ensures r.outcome == HookThrew(OnEnterState) ==>
              events.Some? && r.state == to && r.fired == HookCalls(events.value, from, to)
    // which hook throws decides where the attempt stops: a throwing leave hook
    // stops it before the update and before the enter hook
    ensures Allowed(schema, state, to) && events.Some? && events.value.onLeave && run.leaveThrows ==>
              r == Step(HookThrew(OnLeaveState), state, [Event(OnLeaveState, from, to)])
    ensures Allowed(schema, state, to) && events.Some? && !(events.value.onLeave && run.leaveThrows)
            && events.value.onEnter && run.enterThrows ==>
              r == Step(HookThrew(OnEnterState), to, HookCalls(events.value, from, to))
    ensures r.outcome == EventsUndefined <==> Allowed(schema, state, to) && events.None?
    // without an events object no legal transition gets past the first emit
    ensures events.None? ==> r.state == state && r.fired == []
                             && (r.outcome == CantTransit || r.outcome == EventsUndefined)
    // every hook call carries the caller's (from, to), and no leave follows an enter
    ensures forall e :: e in r.fired ==> e.from == from && e.to == to
    ensures forall i, j :: 0 <= i < j < |r.fired| ==>
              r.fired[i].hook == OnLeaveState && r.fired[j].hook == OnEnterState
    ensures r.outcome != NoSuchAction
  {
    if FindEdge(schema, state, to).None? then
      Step(CantTransit, state, [])
    else
      var leave := EmitSpec(events, OnLeaveState, run.leaveThrows);
      var left := Fired(leave, Event(OnLeaveState, from, to));
      if leave == NoEvents then Step(EventsUndefined, state, left)
      else if leave == Threw then Step(HookThrew(OnLeaveState), state, left)
      else
        var enter := EmitSpec(events, OnEnterState, run.enterThrows);
        var fired := left + Fired(enter, Event(OnEnterState, from, to));
        if enter == NoEvents then Step(EventsUndefined, to, fired)
        else if enter == Threw then Step(HookThrew(OnEnterState), to, fired)
        else Step(Done, to, fired)
  }

  /** The caller's `from` is passed to the hooks but never checked: two attempts
      that differ only in `from` end the same way, in the same state. */
  lemma TransitIgnoresFrom(schema: seq<Edge>, events: Option<Hooks>, state: string,
                           from1: From, from2: From, to: string, run: HookRun)
    ensures TransitSpec(schema, events, state, from1, to, run).outcome
            == TransitSpec(schema, events, state, from2, to, run).outcome
    ensures TransitSpec(schema, events, state, from1, to, run).state
            == TransitSpec(schema, events, state, from2, to, run).state
  {
  }

  /** Calling the method generated for action `name`. */
  function InvokeSpec(actions: seq<ActionDecl>, schema: seq<Edge>, events: Option<Hooks>,
                      state: string, name: string, run: HookRun): (r: Step)
    ensures (forall i :: 0 <= i < |actions| ==> actions[i].name != name) ==>
              r == Step(NoSuchAction, state, [])
  {
    match FindAction(actions, name)
    case None => Step(NoSuchAction, state, [])
    case Some(i) => TransitSpec(schema, events, state, actions[i].from, actions[i].to, run)
  }

  /** Each generated action method behaves exactly as `transit` with that action's
      declared `from` and `to`. */
  lemma {:induction false} InvokeIsTransit(actions: seq<ActionDecl>, schema: seq<Edge>,
                                           events: Option<Hooks>, state: string, i: nat, run: HookRun)
    requires DistinctNames(actions) && i < |actions|
    ensures InvokeSpec(actions, schema, events, state, actions[i].name, run)
            == TransitSpec(schema, events, state, actions[i].from, actions[i].to, run)
  {
    FindDeclaredAction(actions, i);
  }
}
