/**
 * What a node is given: which value stands under which name, and why there is none. Models
 * engine_resolve_node_input.go lines 10-97 independently of the engine's two passes.
 */
module WorkflowInputs {
  import opened OrderedStrings
  import opened JsonValues
  import opened WorkflowTypes
  import opened WorkflowGraph
  import opened WorkflowValidation
  import opened WorkflowEngine

  // ------------------------------------------------------------ what is given

  /** The value at a port of a node that produced an output this node may use. */
  predicate PortHolds(w: World, n: Node, p: Progress, source: string, port: string, value: Json) {
    && source !in p.skipped && (source in p.partials ==> n.errors.acceptsPartial) && source in p.outputs
    && (if port == "" || port == "output" then value == p.outputs[source]
        else w.path(p.outputs[source], port) == Some(value))
  }

  /** The value a binding names: its source's port, the run's input at its path, or its literal. */
  predicate BindingHolds(w: World, n: Node, runInput: Raw, p: Progress, b: Binding, value: Json) {
    if b.sourceNode != "" then PortHolds(w, n, p, b.sourceNode, b.sourcePort, value)
    else if b.inputPath != "" then runInput.Doc? && w.path(runInput.value, b.inputPath) == Some(value)
    else value == match b.literal case Some(literal) => literal case None => JNull
  }

  /** Why a port cannot be read; a missing port of a condition or a switch means that its branch was not taken. */
  ghost predicate PortRefuses(w: World, d: Definition, n: Node, p: Progress, source: string, port: string, e: Error) {
    if source in p.skipped then e == BranchNotSelected
    else if source in p.partials && !n.errors.acceptsPartial then e == PartialUpstream(source)
    else if source !in p.outputs then e == MissingUpstream(source)
    else
      && port != "" && port != "output" && w.path(p.outputs[source], port).None?
      && e == if Branches(d, source) then BranchNotSelected else MissingPort(port)
  }

  /** The first node of that name is a condition or a switch. */
  ghost predicate Branches(d: Definition, id: string) {
    exists i :: FirstNamed(d.nodes, i, id) && d.nodes[i].kind in {"condition", "switch"}
  }

  predicate FirstNamed(nodes: seq<Node>, i: int, id: string) {
    0 <= i < |nodes| && nodes[i].id == id && forall j | 0 <= j < i :: nodes[j].id != id
  }

  ghost predicate BindingRefuses(w: World, d: Definition, n: Node, runInput: Raw, p: Progress, b: Binding, e: Error) {
    if b.sourceNode != "" then PortRefuses(w, d, n, p, b.sourceNode, b.sourcePort, e)
    else if b.inputPath != "" then
      if !runInput.Doc? then e == Rejected(InvalidDefinition)
      else w.path(runInput.value, b.inputPath).None? && e == MissingInput(b.inputPath)
    else false
  }

  /** The names a node's inputs come under: those of its bindings, and the target ports of its edges. */
  ghost function BoundNames(n: Node, from: nat): set<string> {
    set i | from <= i < |n.inputs| :: n.inputs[i].0
  }

  ghost function EdgePorts(d: Definition, n: Node, from: nat): set<string> {
    set i | from <= i < |d.edges| && d.edges[i].target == n.id :: d.edges[i].targetPort
  }

  predicate LastBinding(n: Node, i: int) {
    0 <= i < |n.inputs| && forall j | i < j < |n.inputs| :: n.inputs[j].0 != n.inputs[i].0
  }

  predicate LastEdge(d: Definition, n: Node, i: int) {
    && 0 <= i < |d.edges| && d.edges[i].target == n.id
    && forall j | i < j < |d.edges| && d.edges[j].target == n.id :: d.edges[j].targetPort != d.edges[i].targetPort
  }

  // ---------------------------------------------------------------- the passes

  lemma UpstreamHolds(w: World, d: Definition, n: Node, p: Progress, source: string, port: string)
    ensures
      var u := Upstream(w, d, n, p, source, port);
      && (u.Port? ==> PortHolds(w, n, p, source, port, u.value))
      && (u.NoPort? ==> PortRefuses(w, d, n, p, source, port, u.error))
  {
    assert Conditional(d, source) ==> Branches(d, source) by {
      if Conditional(d, source) {
        var i :| 0 <= i < |d.nodes| && d.nodes[i].id == source && (forall j | 0 <= j < i :: d.nodes[j].id != source) &&
                 (d.nodes[i].kind == "condition" || d.nodes[i].kind == "switch");
        assert FirstNamed(d.nodes, i, source);
      }
    }
  }

  lemma {:induction false} BindingsGive(w: World, d: Definition, n: Node, runInput: Raw, p: Progress, i: nat,
                                        acc: map<string, Json>)
    requires i <= |n.inputs| && BindingFields(w, d, n, runInput, p, i, acc).Fields?
    ensures
      var values := BindingFields(w, d, n, runInput, p, i, acc).values;
      && values.Keys == acc.Keys + BoundNames(n, i)
      && (forall k | k in acc && k !in BoundNames(n, i) :: values[k] == acc[k])
      && (forall k | i <= k < |n.inputs| && LastBinding(n, k) ::
            BindingHolds(w, n, runInput, p, n.inputs[k].1, values[n.inputs[k].0]))
    decreases |n.inputs| - i
  {
    hide Upstream, BindingHolds;
    if i < |n.inputs| {
      var (name, b) := n.inputs[i];
      var value := FirstBinding(w, d, n, runInput, p, i, acc);
      BindingsGive(w, d, n, runInput, p, i + 1, acc[name := value]);
      assert BoundNames(n, i) == {name} + BoundNames(n, i + 1);
      assert LastBinding(n, i) ==> name !in BoundNames(n, i + 1);
    }
  }

  lemma FirstBinding(w: World, d: Definition, n: Node, runInput: Raw, p: Progress, i: nat, acc: map<string, Json>)
    returns (value: Json)
    requires i < |n.inputs| && BindingFields(w, d, n, runInput, p, i, acc).Fields?
    ensures BindingHolds(w, n, runInput, p, n.inputs[i].1, value)
    ensures BindingFields(w, d, n, runInput, p, i, acc)
         == BindingFields(w, d, n, runInput, p, i + 1, acc[n.inputs[i].0 := value])
  {
    hide Upstream, PortHolds;
    var b := n.inputs[i].1;
    UpstreamHolds(w, d, n, p, b.sourceNode, b.sourcePort);
    value := if b.sourceNode != "" then Upstream(w, d, n, p, b.sourceNode, b.sourcePort).value
             else if b.inputPath != "" then w.path(runInput.value, b.inputPath).value
             else if b.literal.Some? then b.literal.value else JNull;
  }

  lemma {:induction false} EdgesGive(w: World, d: Definition, n: Node, p: Progress, i: nat, acc: map<string, Json>)
    requires i <= |d.edges| && EdgeFields(w, d, n, p, i, acc).Fields?
    ensures
      var values := EdgeFields(w, d, n, p, i, acc).values;
      && values.Keys == acc.Keys + EdgePorts(d, n, i)
      && (forall k | k in acc && k !in EdgePorts(d, n, i) :: values[k] == acc[k])
      && (forall k | i <= k < |d.edges| && LastEdge(d, n, k) ::
            PortHolds(w, n, p, d.edges[k].source, d.edges[k].sourcePort, values[d.edges[k].targetPort]))
    decreases |d.edges| - i
  {
    hide Upstream, PortHolds;
    if i < |d.edges| {
      var e := d.edges[i];
      if e.target != n.id {
        EdgesGive(w, d, n, p, i + 1, acc);
        assert EdgePorts(d, n, i) == EdgePorts(d, n, i + 1);
      } else {
        UpstreamHolds(w, d, n, p, e.source, e.sourcePort);
        var value := Upstream(w, d, n, p, e.source, e.sourcePort).value;
        EdgesGive(w, d, n, p, i + 1, acc[e.targetPort := value]);
        assert EdgePorts(d, n, i) == {e.targetPort} + EdgePorts(d, n, i + 1);
        assert LastEdge(d, n, i) ==> e.targetPort !in EdgePorts(d, n, i + 1);
      }
    }
  }

  // ------------------------------------------------------------- main results

  /**
   * A resolved input: with names it is an object under exactly those names, an edge's value under its target
   * port and any other binding's under its own name; without names it is the run's input, or empty.
   */
  lemma ResolvedInput(w: World, d: Definition, n: Node, runInput: Raw, p: Progress)
    requires ResolveInput(w, d, n, runInput, p).Resolved?
    ensures
      var input := ResolveInput(w, d, n, runInput, p).input;
      var names := BoundNames(n, 0) + EdgePorts(d, n, 0);
      && (names == {} ==> input == if runInput == Absent then Doc(JObject(map[])) else runInput)
      && (names != {} ==>
            && input.Doc? && input.value.JObject? && input.value.fields.Keys == names
            && (forall k | LastEdge(d, n, k) ::
                  PortHolds(w, n, p, d.edges[k].source, d.edges[k].sourcePort,
                            input.value.fields[d.edges[k].targetPort]))
            && (forall k | LastBinding(n, k) && n.inputs[k].0 !in EdgePorts(d, n, 0) ::
                  BindingHolds(w, n, runInput, p, n.inputs[k].1, input.value.fields[n.inputs[k].0])))
  {
    hide BindingFields, EdgeFields, BindingHolds, PortHolds;
    BindingsGive(w, d, n, runInput, p, 0, map[]);
    var bound := BindingFields(w, d, n, runInput, p, 0, map[]).values;
    EdgesGive(w, d, n, p, 0, bound);
    var all := EdgeFields(w, d, n, p, 0, bound).values;
    assert all.Keys == BoundNames(n, 0) + EdgePorts(d, n, 0);
    assert all == map[] <==> all.Keys == {};
    forall k | LastEdge(d, n, k) ensures d.edges[k].targetPort in EdgePorts(d, n, 0) {}
    forall k | LastBinding(n, k) ensures n.inputs[k].0 in BoundNames(n, 0) {}
  }

  /** Nothing before a binding refuses, and it does; or no binding refuses and an edge is the first to. */
  ghost predicate FirstRefusal(w: World, d: Definition, n: Node, runInput: Raw, p: Progress, e: Error) {
    || BindingRefusal(w, d, n, runInput, p, 0, e)
    || ((forall k | 0 <= k < |n.inputs| :: BindingGiven(w, n, runInput, p, n.inputs[k].1)) &&
        EdgeRefusal(w, d, n, p, 0, e))
  }

  ghost predicate BindingGiven(w: World, n: Node, runInput: Raw, p: Progress, b: Binding) {
    exists v :: BindingHolds(w, n, runInput, p, b, v)
  }

  ghost predicate EdgeGiven(w: World, n: Node, p: Progress, e: Edge) {
    e.target == n.id ==> exists v :: PortHolds(w, n, p, e.source, e.sourcePort, v)
  }

  ghost predicate BindingRefusal(w: World, d: Definition, n: Node, runInput: Raw, p: Progress, i: nat, e: Error) {
    exists k :: i <= k < |n.inputs| && BindingRefuses(w, d, n, runInput, p, n.inputs[k].1, e) &&
      forall j | i <= j < k :: BindingGiven(w, n, runInput, p, n.inputs[j].1)
  }

  ghost predicate EdgeRefusal(w: World, d: Definition, n: Node, p: Progress, i: nat, e: Error) {
    exists k :: i <= k < |d.edges| && d.edges[k].target == n.id &&
      PortRefuses(w, d, n, p, d.edges[k].source, d.edges[k].sourcePort, e) &&
      forall j | i <= j < k :: EdgeGiven(w, n, p, d.edges[j])
  }

  lemma {:induction false} BindingsGiven(w: World, d: Definition, n: Node, runInput: Raw, p: Progress, i: nat,
                                         acc: map<string, Json>)
    requires i <= |n.inputs|
    ensures
      match BindingFields(w, d, n, runInput, p, i, acc)
      case Fields(_) => forall k | i <= k < |n.inputs| :: BindingGiven(w, n, runInput, p, n.inputs[k].1)
      case NoFields(e) => BindingRefusal(w, d, n, runInput, p, i, e)
    decreases |n.inputs| - i
  {
    hide Upstream, BindingHolds, BindingRefuses;
    if i < |n.inputs| {
      var b := n.inputs[i].1;
      BindingStep(w, d, n, runInput, p, i, acc);
      var fields := BindingFields(w, d, n, runInput, p, i, acc);
      if value :| BindingHolds(w, n, runInput, p, b, value) &&
                  fields == BindingFields(w, d, n, runInput, p, i + 1, acc[n.inputs[i].0 := value])
      {
        BindingsGiven(w, d, n, runInput, p, i + 1, acc[n.inputs[i].0 := value]);
        assert BindingGiven(w, n, runInput, p, b);
      } else {
        assert BindingRefuses(w, d, n, runInput, p, b, fields.error);
      }
    }
  }

  lemma BindingStep(w: World, d: Definition, n: Node, runInput: Raw, p: Progress, i: nat, acc: map<string, Json>)
    requires i < |n.inputs|
    ensures
      || (exists value :: BindingHolds(w, n, runInput, p, n.inputs[i].1, value) &&
            BindingFields(w, d, n, runInput, p, i, acc)
              == BindingFields(w, d, n, runInput, p, i + 1, acc[n.inputs[i].0 := value]))
      || (BindingFields(w, d, n, runInput, p, i, acc).NoFields? &&
          BindingRefuses(w, d, n, runInput, p, n.inputs[i].1, BindingFields(w, d, n, runInput, p, i, acc).error))
  {
    hide Upstream, PortHolds, PortRefuses;
    var b := n.inputs[i].1;
    UpstreamHolds(w, d, n, p, b.sourceNode, b.sourcePort);
    var u := Upstream(w, d, n, p, b.sourceNode, b.sourcePort);
    if b.sourceNode != "" {
      if u.Port? { assert BindingHolds(w, n, runInput, p, b, u.value); }
    } else if b.inputPath != "" {
      if runInput.Doc? && w.path(runInput.value, b.inputPath).Some? {
        assert BindingHolds(w, n, runInput, p, b, w.path(runInput.value, b.inputPath).value);
      }
    } else {
      assert BindingHolds(w, n, runInput, p, b, if b.literal.Some? then b.literal.value else JNull);
    }
  }

  lemma {:induction false} EdgesGiven(w: World, d: Definition, n: Node, p: Progress, i: nat, acc: map<string, Json>)
    requires i <= |d.edges|
    ensures
      match EdgeFields(w, d, n, p, i, acc)
      case Fields(_) => forall k | i <= k < |d.edges| :: EdgeGiven(w, n, p, d.edges[k])
      case NoFields(e) => EdgeRefusal(w, d, n, p, i, e)
    decreases |d.edges| - i
  {
    hide Upstream, PortHolds, PortRefuses;
    if i < |d.edges| {
      var e := d.edges[i];
      if e.target != n.id {
        EdgesGiven(w, d, n, p, i + 1, acc);
      } else {
        UpstreamHolds(w, d, n, p, e.source, e.sourcePort);
        var u := Upstream(w, d, n, p, e.source, e.sourcePort);
        if u.Port? {
          EdgesGiven(w, d, n, p, i + 1, acc[e.targetPort := u.value]);
          assert EdgeGiven(w, n, p, e);
        } else {
          assert PortRefuses(w, d, n, p, e.source, e.sourcePort, u.error);
        }
      }
    }
  }

  /**
   * An input resolves exactly when every binding of the node and every edge into it gives a value; otherwise
   * the error is that of the first that refuses, bindings before edges.
   */
  lemma ResolvesIffAllGiven(w: World, d: Definition, n: Node, runInput: Raw, p: Progress)
    ensures
      var r := ResolveInput(w, d, n, runInput, p);
      && (r.Resolved? <==>
            && (forall k | 0 <= k < |n.inputs| :: BindingGiven(w, n, runInput, p, n.inputs[k].1))
            && forall k | 0 <= k < |d.edges| :: EdgeGiven(w, n, p, d.edges[k]))
      && (r.Unresolved? ==> FirstRefusal(w, d, n, runInput, p, r.error))
  {
    hide BindingFields, EdgeFields, BindingGiven, EdgeGiven, BindingRefuses, PortRefuses;
    BindingsGiven(w, d, n, runInput, p, 0, map[]);
    var bound := BindingFields(w, d, n, runInput, p, 0, map[]);
    if bound.Fields? {
      EdgesGiven(w, d, n, p, 0, bound.values);
      var all := EdgeFields(w, d, n, p, 0, bound.values);
      if all.NoFields? {
        var k :| 0 <= k < |d.edges| && d.edges[k].target == n.id &&
                 PortRefuses(w, d, n, p, d.edges[k].source, d.edges[k].sourcePort, all.error);
        RefusedNotHeld(w, d, n, p, d.edges[k].source, d.edges[k].sourcePort, all.error);
        NotGiven(w, n, p, d.edges[k]);
      }
    } else {
      var k :| 0 <= k < |n.inputs| && BindingRefuses(w, d, n, runInput, p, n.inputs[k].1, bound.error);
      BindingNotGiven(w, d, n, runInput, p, n.inputs[k].1, bound.error);
    }
  }

  lemma RefusedNotHeld(w: World, d: Definition, n: Node, p: Progress, source: string, port: string, e: Error)
    requires PortRefuses(w, d, n, p, source, port, e)
    ensures forall v :: !PortHolds(w, n, p, source, port, v)
  {
  }

  lemma NotGiven(w: World, n: Node, p: Progress, e: Edge)
    requires e.target == n.id && forall v :: !PortHolds(w, n, p, e.source, e.sourcePort, v)
    ensures !EdgeGiven(w, n, p, e)
  {
  }

  lemma BindingNotGiven(w: World, d: Definition, n: Node, runInput: Raw, p: Progress, b: Binding, e: Error)
    requires BindingRefuses(w, d, n, runInput, p, b, e)
    ensures !BindingGiven(w, n, runInput, p, b)
  {
    if b.sourceNode != "" { RefusedNotHeld(w, d, n, p, b.sourceNode, b.sourcePort, e); }
  }
}
