/** Construction as the TypeScript class does it: `new Fsmx(options)`. */
module FsmxTs {
  import opened Schema
  import opened Transition
  import opened Config
  import opened Machine

  /** The constructor's option checks, in order: a falsy `initial`, then a
      non-string `initial`, then an absent or empty action map. On success, the
      initial state. */
  function Check(opts: Options): (r: Result<string>)
    ensures r == Failure(NoInitialState) <==> Falsy(opts.initial)
    ensures r == Failure(InvalidTypeOfState) <==> !Falsy(opts.initial) && !opts.initial.Str?
    ensures r == Failure(NoActions) <==>
              !Falsy(opts.initial) && opts.initial.Str? && (opts.actions.None? || opts.actions.value == [])
    ensures r.Success? ==> opts.initial == Str(r.value) && r.value != ""
                           && opts.actions.Some? && opts.actions.value != []
  {
    if Falsy(opts.initial) then Failure(NoInitialState)
    else if !opts.initial.Str? then Failure(InvalidTypeOfState)
    else if opts.actions.None? || |opts.actions.value| == 0 then Failure(NoActions)
    else Success(opts.initial.s)
  }

  /** `new Fsmx(options)`: throws the first failing check, or builds a machine
      whose state is `initial`, whose schema has one edge per action, and which
      keeps `options.events` exactly as given (possibly absent). */
  method Construct(opts: Options) returns (r: Result<Fsmx>)
    requires opts.actions.Some? ==> DistinctNames(opts.actions.value)
    ensures r.Failure? <==> Check(opts).Failure?
    ensures r.Failure? ==> r.error == Check(opts).error
    ensures r.Success? ==>
              && fresh(r.value)
              && opts.initial == Str(r.value.initial)
              && r.value.state == r.value.initial
              && r.value.Is(r.value.initial)
              && r.value.events == opts.events
              && opts.actions == Some(r.value.actions)
              && r.value.schema == SchemaOf(r.value.actions)
              && DistinctNames(r.value.actions)
              && |r.value.schema| > 0
              && r.value.trace == []
  {
    var checked := Check(opts);
    if checked.Failure? {
      return Failure(checked.error);
    }
    var m := new Fsmx(checked.value, opts.events, opts.actions.value);
    r := Success(m);
  }
}
