/** The compiled transition table of an fsmx machine: the edges built from the
    action map and the legality scan that `can` runs over them. */
module Schema {

  datatype Option<+T> = None | Some(value: T)

  /** The `from` side of an action: one state name or a list of acceptable ones. */
  datatype From = Single(name: string) | Many(names: seq<string>)

  /** One compiled `{from, to}` rule of the schema. */
  datatype Edge = Edge(from: From, to: string)

  /** One entry of the action map, in the order the map's keys are listed. */
  datatype ActionDecl = ActionDecl(name: string, from: From, to: string)

  /** `from` matches the current state: equality for a single name, membership for a list. */
  predicate Matches(from: From, state: string)
  {
    match from
    case Single(name) => name == state
    case Many(names) => state in names
  }

  /** The test one schema entry passes during the `find` of `can`. */
  predicate EdgeAllows(e: Edge, state: string, to: string)
  {
    Matches(e.from, state) && e.to == to
  }

  /** Reference meaning of `can`: some edge leads to `to` from the current state. */
  ghost predicate Allowed(schema: seq<Edge>, state: string, to: string)
  {
    exists i :: 0 <= i < |schema| && EdgeAllows(schema[i], state, to)
  }

  /** The left-to-right scan of `can`: the index of the first edge that allows
      the move, or None when there is none. */
  function FindEdge(schema: seq<Edge>, state: string, to: string): (r: Option<nat>)
    ensures r.None? <==> !Allowed(schema, state, to)
    ensures r.Some? ==> r.value < |schema| && EdgeAllows(schema[r.value], state, to)
    ensures r.Some? ==> forall j :: 0 <= j < r.value ==> !EdgeAllows(schema[j], state, to)
    decreases |schema|
  {
    if schema == [] then None
    else if EdgeAllows(schema[0], state, to) then Some(0)
    else
      match FindEdge(schema[1..], state, to)
      case None => None
      case Some(k) => Some(k + 1)
  }

  function EdgeOf(a: ActionDecl): Edge
  {
    Edge(a.from, a.to)
  }

  /** The schema compiled from an action map: one edge per action, in key order. */
  function SchemaOf(actions: seq<ActionDecl>): (r: seq<Edge>)
    ensures |r| == |actions|
    ensures forall i :: 0 <= i < |r| ==> r[i].from == actions[i].from && r[i].to == actions[i].to
    decreases |actions|
  {
    if actions == [] then []
    else SchemaOf(actions[..|actions| - 1]) + [EdgeOf(actions[|actions| - 1])]
  }

  /** The keys of a JavaScript object are pairwise different. */
  predicate DistinctNames(actions: seq<ActionDecl>)
  {
    forall i, j :: 0 <= i < j < |actions| ==> actions[i].name != actions[j].name
  }

  /** The method the machine generated for `name`: the index of the action
      declared under that name, or None when no action has it. */
  function FindAction(actions: seq<ActionDecl>, name: string): (r: Option<nat>)
    ensures r.None? <==> forall i :: 0 <= i < |actions| ==> actions[i].name != name
    ensures r.Some? ==> r.value < |actions| && actions[r.value].name == name
    decreases |actions|
  {
    if actions == [] then None
    else if actions[0].name == name then Some(0)
    else
      match FindAction(actions[1..], name)
      case None => None
      case Some(k) => Some(k + 1)
  }

  /** Under distinct names, the generated method for a declared action finds exactly that action. */
  lemma {:induction false} FindDeclaredAction(actions: seq<ActionDecl>, i: nat)
    requires DistinctNames(actions) && i < |actions|
    ensures FindAction(actions, actions[i].name) == Some(i)
  {
    // FindAction returns some index whose name is actions[i].name; distinct names leave only i.
    assert FindAction(actions, actions[i].name).Some?;
  }
}
