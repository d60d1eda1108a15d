# fsmx — a verified model of the state-machine engine

fsmx builds a finite-state machine from an options object. The object has an
`initial` state name, an action map (action name to `{from, to}`) and an
optional `events` object with two hooks, `onLeaveState` and `onEnterState`.
The machine:

- keeps a current `state`, starting at `initial`;
- compiles the action map into an ordered `schema` of edges;
- answers `can(to)` by scanning the schema for an edge to `to` whose `from`
  accepts the current state;
- moves with `transit(from, to)` or with the zero-argument method generated for
  each action. A legal move calls the leave hook, sets the state, then calls the
  enter hook. An illegal one throws "Can't transit to target";
- offers `is(name)` and `reset()`.

The repository has two versions of this engine. `src/index.ts` is a class
whose constructor validates the options. `src/index.js` is a factory that
validates the options and then decorates an inner class. Their run-time
behaviour is the same, so the model has one machine class and two
construction entry points.

Layout:

- `schema.dfy` (`Schema`): `From` (a single name or a list of names), `Edge`,
  `ActionDecl`, the `Matches` predicate, the left-to-right scan `FindEdge`
  against its reference meaning `Allowed`, schema compilation `SchemaOf`, and
  the lookup `FindAction` behind the generated action methods.
- `transition.dfy` (`Transition`): hooks, hook calls (`Event`), outcomes, and
  the transition protocol as functions of the state (`EmitSpec`,
  `TransitSpec`, `InvokeSpec`).
- `machine.dfy` (`Machine`): class `Fsmx`. It holds `initial`, `events` and the
  action table as constants, and `schema` and `state` as fields. A ghost
  `trace` records every hook call. The methods update `state` in place, and
  each one is proved against the `Transition` function for its step.
- `config.dfy` (`Config`): the options object and the three construction
  errors.
- `fsmx_ts.dfy` (`FsmxTs`) and `fsmx_js.dfy` (`FsmxJs`): the option checks and
  the construction of each version.
- `scenarios.dfy` (`Scenarios`): the machines of `test/index.test.js` and what
  the model proves they do.

Hook bodies are caller code. The model treats each hook as present or absent,
and a `HookRun` parameter says whether a called hook returns or throws. The
ghost `trace` records which hooks were called, with which `(from, to)`, and in
what order.

Where the two versions differ, the model follows each version's code:

- An empty action map. `src/index.ts:47` rejects it with "No actions defined".
  `src/index.js:23` rejects only an absent map, so an empty map gives a machine
  with an empty schema.
- An omitted `events` object. `src/index.js:12` replaces it with `{}`, so every
  hook is absent. `src/index.ts:53` stores it as given, and `emit` then reads a
  hook from `undefined` (`src/index.ts:70`) and throws. In the model, a TS
  machine built without `events` refuses every legal move with outcome
  `EventsUndefined`, before the state changes and before any hook runs. It does
  not skip the hooks. The TS interface marks `events` as optional, but the
  model follows the code.

## Model

| member | source | states |
|---|---|---|
| `Schema.FindEdge` | src/index.js:70-78 | The scan of `can` finds an edge exactly when some edge has the target as `to` and a `from` matching the state. The edge it returns is the first such edge in schema order. |
| `Schema.SchemaOf` | src/index.ts:75-81 | The compiled schema has exactly one edge per action. The edges are in key order, and each carries its action's `from` and `to`. |
| `Schema.FindAction` | src/index.js:33-41 | A generated method exists for `name` exactly when some action is declared under it. The method found is for an action with that name. |
| `Schema.FindDeclaredAction` | src/index.ts:76-84 | Action names are distinct. So the method generated for a declared action is found at that action's own position. |
| `Transition.EmitSpec` | src/index.ts:69-73 | `emit` has four results. It fails when there is no events object. It calls nothing when the hook is not a function. Otherwise it calls the hook, which then returns or throws. |
| `Transition.TransitSpec` | src/index.ts:59-67 | A move is refused ("Can't transit to target") exactly when `can(to)` is false, and then the state stays and no hook fires. A completed move ends at `to` after calling the present hooks, leave before enter. When the move is legal and a present leave hook throws, the attempt stops there: the state is unchanged and only the leave call happened. When the leave step passes and a present enter hook throws, the state is already `to` and both present hooks were called. The missing-events failure happens exactly when the move is legal and there is no events object, and then the state does not change. Every hook call gets the caller's `(from, to)`, and the state is always either the old state or `to`. |
| `Transition.TransitIgnoresFrom` | src/index.js:52-60 | The caller's `from` is never checked. Two attempts that differ only in `from` end with the same outcome and the same state. |
| `Transition.InvokeSpec` | src/index.ts:82-84 | Calling a method that no action generated changes nothing and calls no hook. |
| `Transition.InvokeIsTransit` | src/index.js:39-41 | Each generated action method behaves exactly as `transit` with that action's declared `from` and `to`. |
| `Machine.Fsmx.constructor` | src/index.ts:51-56 | After construction, `state` equals `initial`. The schema is the compiled action map, built by appending one edge per action in order. No hook has fired. |
| `Machine.Fsmx.Can` | src/index.ts:88-96 | `can(to)` is true exactly when some schema edge has `to` and a `from` that equals the state (single name) or contains it (list). It only reads the machine. |
| `Machine.Fsmx.Emit` | src/index.js:63-67 | `_emit` records a hook call exactly when the hook is a function, and returns what `EmitSpec` predicts. |
| `Machine.Fsmx.Transit` | src/index.js:52-60 | `_transit` leaves the outcome, the new state and the recorded hook calls that `TransitSpec` gives for the old state. `initial`, `schema` and the action table stay as they were. After a completed move `is(to)` holds, and `is` of the old state is false when the move went elsewhere. |
| `Machine.Fsmx.Invoke` | src/index.ts:82-84 | The generated action method gives the outcome, state and hook calls that `InvokeSpec` predicts, and changes nothing but `state` and the trace. |
| `Machine.Fsmx.Reset` | src/index.ts:102-104 | `reset()` sets the state to `initial` whatever it was, with no check and no hook call. A second reset gives the same state. |
| `FsmxTs.Check` | src/index.ts:39-49 | A falsy `initial` (absent, empty, or a falsy non-string) gives "No initial state defined", before any other check. A truthy non-string gives the TypeError kind. Otherwise an absent or empty action map gives "No actions defined". Success returns the non-empty initial string. |
| `FsmxTs.Construct` | src/index.ts:38-57 | `new Fsmx(options)` fails exactly as `Check` says. On success the new machine has state `initial` (so `is(initial)` holds), the given `events` as-is, and a non-empty schema with one edge per action. Its action names stay pairwise different, as the keys of the options object are. |
| `FsmxJs.Check` | src/index.js:15-25 | The same first two checks as the TS version. After them, only an absent action map gives "No actions defined", and an empty one passes. |
| `FsmxJs.EventsOf` | src/index.js:12 | An omitted events object defaults to one with no hooks, so there is always an object to read hooks from. A given object is kept. |
| `FsmxJs.Construct` | src/index.js:9-47 | `fsm(options)` fails exactly as `Check` says. On success the machine has state `initial` (so `is(initial)` holds), the defaulted events object, and a schema with one edge per action (possibly none). Its action names stay pairwise different, as the keys of the options object are. |
| `FsmxJs.DefaultEventsNeverFault` | src/index.js:63-67 | With the defaulted events object, an allowed move never fails for lack of an events object. When `events` was omitted, the move completes and calls no hook. |
| `Scenarios.DocumentedRun` | test/index.test.js:87-117 | On the test suite's machine, the test's ten action calls visit wait, listen, calculate, error, wait, listen, calculate, speak, end, wait. |
| `Scenarios.ResetAfterWait` | test/index.test.js:119-124 | After moving to `wait`, `reset()` returns the machine to `initial`, and a second reset keeps it there. |
| `Scenarios.RejectedTransit` | test/index.test.js:126-133 | `transit('kek', 'pek')` is refused with "Can't transit to target", and the state stays `initial`. |
| `Scenarios.LeaveHookArguments` | test/index.test.js:135-152 | With only a leave hook, `start()` calls it once with `('initial', 'start')` and ends in `start`. |
| `Scenarios.EnterHookArguments` | test/index.test.js:154-171 | With only an enter hook, `start()` ends in `start` and calls the hook once with `('initial', 'start')`. |
| `Scenarios.InitialParamChecks` | test/index.test.js:4-29 | Options with no `initial` give "No initial state defined". `initial: 123` gives the TypeError kind. `initial: 'foo'` without actions gives "No actions defined". |

## Left out

- Asynchrony: a transition is one sequential step, so a second transition cannot start during a hook's await window. The race described for overlapping calls, and a reset landing inside that window, are not modelled.
- Hook bodies are caller code. They appear only as "present or not" and "returns or throws". Their own effects, and any value they return, are not modelled.
- The `@Log` decorator (`src/log.js`) is not modelled. Besides logging, it runs each decorated JS method (`_transit`, `_emit`, `can`, `is`, `reset`) with `this` bound to the class prototype (`src/log.js:12`). So those methods, and the generated action methods that call `target.prototype._transit`, all read and write one shared state. The model's single machine instance with its own fields relies on this. The same goes for `webpack.config.js` and the generated `dist/index.d.ts`.
- Action names that collide with a member of the machine are not modelled. Each generated method is installed on the machine itself (`src/index.ts:82`, `src/index.js:39`). An action named `state` would set the state to a function through the setter. One named `schema` would make the next `schema.push` throw during construction. One named `can`, `is`, `reset` or `transit`/`_transit` would replace that method. The model keeps the action table apart from the machine's members, so these overwrites cannot occur in it.
- The JS prototype plumbing (`mixin` writing onto `target.prototype`, the decorator returning a factory, the `_state` getter and setter) is not modelled. The model has one machine instance with its own fields.
- An `events: null` passed explicitly to the JS factory is not told apart from an omitted one. The JS default applies only to `undefined`, and a `null` would make `_emit` throw as in the TS case.
- The generated methods read `actions[action]` from the caller's object each time they are called. The model fixes the table at construction, so changing the action map after construction is not captured.
- Action names are a sequence taken in `Object.keys` order as given. JavaScript's rule that integer-like keys are listed first is not modelled.
- A non-string `to`, non-string list entries, and action maps that are truthy non-objects fall outside the declared TypeScript types and are not modelled.
- History and undo exist only as placeholder tests with no implementation, so they are not modelled.
