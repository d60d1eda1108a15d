/** The options object a machine is built from, and the ways building one fails. */
module Config {
  import opened Schema
  import opened Transition

  /** The `initial` option as JavaScript sees it: absent, a string, or some other
      value, which is truthy or falsy (`0`, `false` and `null` are falsy). */
  datatype InitialArg = Missing | Str(s: string) | NonString(truthy: bool)

  /** `!initial` holds: absent, the empty string, or a falsy non-string. */
  predicate Falsy(i: InitialArg)
  {
    match i
    case Missing => true
    case Str(s) => s == ""
    case NonString(truthy) => !truthy
  }

  /** The options: `initial`, the action map (None when absent; its names are an object's keys,
      so pairwise different) and the events object (None when absent). */
  datatype Options = Options(initial: InitialArg, actions: Option<seq<ActionDecl>>, events: Option<Hooks>)

  /** "No initial state defined", "Initial state should be string" (a TypeError), "No actions defined". */
  datatype ConstructError = NoInitialState | InvalidTypeOfState | NoActions

  datatype Result<+T> = Success(value: T) | Failure(error: ConstructError)
}
