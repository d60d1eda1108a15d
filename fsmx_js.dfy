/** Construction as the JavaScript default export does it: `fsm(options)`. */
module FsmxJs {
  import opened Schema
  import opened Transition
  import opened Config
  import opened Machine

  /** The factory's option checks, in order: a falsy `initial`, then a non-string
      `initial`, then an absent action map. An empty action map passes. */
  function Check(opts: Options): (r: Result<string>)
    ensures r == Failure(NoInitialState) <==> Falsy(opts.initial)
    ensures r == Failure(InvalidTypeOfState) <==> !Falsy(opts.initial) && !opts.initial.Str?
    ensures r == Failure(NoActions) <==> !Falsy(opts.initial) && opts.initial.Str? && opts.actions.None?
    ensures r.Success? ==> opts.initial == Str(r.value) && r.value != "" && opts.actions.Some?
  {
    if Falsy(opts.initial) then Failure(NoInitialState)
    else if !opts.initial.Str? then Failure(InvalidTypeOfState)
    else if opts.actions.None? then Failure(NoActions)
    else Success(opts.initial.s)
  }

  /** The `events = {}` default of the factory's parameter list: an omitted
      events object becomes one with no hooks, so there is always one to read. */
  function EventsOf(opts: Options): (e: Option<Hooks>)
    ensures e.Some?
    ensures opts.events.Some? ==> e == opts.events
    ensures opts.events.None? ==> !e.value.onLeave && !e.value.onEnter
  {
    match opts.events
    case None => Some(Hooks(false, false))
    case Some(h) => Some(h)
  }

  /** `fsm(options)`: throws the first failing check, or builds a machine whose
      state is `initial`, whose schema has one edge per action (none for an empty
      map), and whose events object is the given one or the empty default. */
  method Construct(opts: Options) returns (r: Result<Fsmx>)
    requires opts.actions.Some? ==> DistinctNames(opts.actions.value)
    ensures r.Failure? <==> Check(opts).Failure?
    ensures r.Failure? ==> r.error == Check(opts).error
    ensures r.Success? ==>
              && fresh(r.value)
              && opts.initial == Str(r.value.initial)
              && r.value.state == r.value.initial
              && r.value.Is(r.value.initial)
              && r.value.events == EventsOf(opts)
              && opts.actions == Some(r.value.actions)
              && r.value.schema == SchemaOf(r.value.actions)
              && DistinctNames(r.value.actions)
              && r.value.trace == []
  {
    var checked := Check(opts);
    if checked.Failure? {
      return Failure(checked.error);
    }
    var m := new Fsmx(checked.value, EventsOf(opts), opts.actions.value);
    r := Success(m);
  }

  /** With the default events object a transition never fails for want of one:
      an allowed move always reaches its target when no hook throws. */
  lemma DefaultEventsNeverFault(opts: Options, schema: seq<Edge>, state: string,
                                from: From, to: string, run: HookRun)
    requires Allowed(schema, state, to)
    ensures TransitSpec(schema, EventsOf(opts), state, from, to, run).outcome != EventsUndefined
    ensures opts.events.None? ==>
              TransitSpec(schema, EventsOf(opts), state, from, to, run) == Step(Done, to, [])
  {
  }
}
