/** The machine object: its configuration, its compiled schema and the one
    mutable cell, the current state. */
module Machine {
  import opened Schema
  import opened Transition

  class Fsmx {
    /** Fixed at construction. */
    const initial: string
    /** The `events` object as stored; None when there is none to read hooks from. */
    const events: Option<Hooks>
    /** The action map, key order kept: the table behind the generated action methods. */
    const actions: seq<ActionDecl>
    /** Filled by the construction loop, read by `can`. */
    var schema: seq<Edge>
    /** The current state. */
    var state: string
    /** Every hook call so far, in order. */
    ghost var trace: seq<Event>

    /** Records the configuration, sets the state to `initial`, then compiles the
        actions one by one, appending one edge each to the schema. */
    constructor (initial: string, events: Option<Hooks>, actions: seq<ActionDecl>)
      ensures this.initial == initial && this.events == events && this.actions == actions
      ensures state == initial && trace == []
      ensures schema == SchemaOf(actions)
    {
      this.initial := initial;
      this.events := events;
      this.actions := actions;
      state := initial;
      trace := [];
      schema := [];
      new;
      var i := 0;
      while i < |actions|
        invariant 0 <= i <= |actions|
        invariant schema == SchemaOf(actions[..i])
        invariant state == initial && trace == []
      {
        schema := schema + [EdgeOf(actions[i])];
        assert actions[..i + 1][..i] == actions[..i];
        i := i + 1;
      }
      assert actions[..|actions|] == actions;
    }

    /** `can(to)`: some edge leads to `to` from the current state. */
    function Can(to: string): (b: bool)
      reads this
      ensures b <==> exists i :: 0 <= i < |schema| && schema[i].to == to && Matches(schema[i].from, state)
    {
      FindEdge(schema, state, to).Some?
    }

    /** `is(name)`: the current state is `name`. */
    function Is(name: string): (b: bool)
      reads this
      ensures b <==> state == name
    {
      state == name
    }

    /** `emit(hook, from, to)`: calls the hook, recording the call, when the
        events object holds a function under that name. */
    method Emit(hook: Hook, from: From, to: string, throws: bool) returns (e: EmitResult)
      modifies this`trace
      ensures e == EmitSpec(events, hook, throws)
      ensures trace == old(trace) + Fired(e, Event(hook, from, to))
    {
      match events
      case None =>
        e := NoEvents;
      case Some(h) =>
        if h.Has(hook) {
          trace := trace + [Event(hook, from, to)];
          e := if throws then Threw else Called;
        } else {
          e := Skipped;
        }
    }

    /** `transit(from, to)`: checks `can(to)`, then leave hook, state update, enter hook. */
    method Transit(from: From, to: string, run: HookRun) returns (r: Outcome)
      modifies this`state, this`trace
      ensures var s := TransitSpec(schema, events, old(state), from, to, run);
              r == s.outcome && state == s.state && trace == old(trace) + s.fired
      ensures r == Done ==> Is(to)
      ensures r == Done && to != old(state) ==> !Is(old(state))
    {
      if !Can(to) {
        return CantTransit;
      }
      var leave := Emit(OnLeaveState, from, to, run.leaveThrows);
      if leave == NoEvents {
        return EventsUndefined;
      } else if leave == Threw {
        return HookThrew(OnLeaveState);
      }
      state := to;
      var enter := Emit(OnEnterState, from, to, run.enterThrows);
      if enter == NoEvents {
        return EventsUndefined;
      } else if enter == Threw {
        return HookThrew(OnEnterState);
      }
      r := Done;
    }

    /** The zero-argument method generated for action `name`: `transit` with the
        action's declared `from` and `to`. */
    method Invoke(name: string, run: HookRun) returns (r: Outcome)
      modifies this`state, this`trace
      ensures var s := InvokeSpec(actions, schema, events, old(state), name, run);
              r == s.outcome && state == s.state && trace == old(trace) + s.fired
    {
      var k := FindAction(actions, name);
      if k.None? {
        return NoSuchAction;
      }
      var a := actions[k.value];
      r := Transit(a.from, a.to, run);
    }

    /** `reset()`: back to `initial`, with no legality check and no hook. */
    method Reset()
      modifies this`state
      ensures state == initial && Is(initial)
    {
      state := initial;
    }
  }
}
