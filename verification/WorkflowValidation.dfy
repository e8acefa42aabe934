/**
 * Publication-time validation of a workflow and of everything it can start.
 * Models validate.go lines 13-169.
 */
module WorkflowValidation {
  import opened OrderedStrings
  import opened WorkflowTypes
  import opened WorkflowGraph

  const FORMAT_VERSION := 2
  const MAX_DEPTH := 16

  datatype ValidationError = InvalidDefinition | ProviderMissing | CapabilityDenied

  /** The registry, the resolver, and the syntax checks that are not modelled. */
  datatype Rules = Rules(
    registry: map<(string, int), Descriptor>,
    resolver: map<string, Pinned>,
    token: (string, nat) -> bool,
    hasPort: (Schema, string) -> bool,
    schemaOk: Schema -> bool,
    configOk: Config -> bool)

  function RiskRank(r: Risk): nat {
    match r
    case Destructive => 3
    case Write => 2
    case Read => 1
  }

  predicate RetryOk(r: Retry) {
    r == Retry(0, 0) || r == Retry(3, 60)
  }

  predicate ModeOk(mode: string) {
    mode == "" || mode == "fail" || mode == "continue" || mode == "collect"
  }

  predicate HeaderOk(d: Definition, depth: nat) {
    d.formatVersion == FORMAT_VERSION && 0 < |d.nodes| <= 1000 && |d.edges| <= 5000 && depth <= MAX_DEPTH
  }

  // ------------------------------------------------------- the specification

  predicate CapabilitiesOk(rules: Rules, cs: seq<Capability>) {
    forall i | 0 <= i < |cs| :: rules.token(cs[i].name, 160)
  }

  /** The risk granted for each capability; a later requirement for the same one wins. */
  function Granted(cs: seq<Capability>): map<string, Risk> {
    if cs == [] then map[]
    else
      var c := cs[|cs| - 1];
      Granted(cs[..|cs| - 1])[c.name := c.risk]
  }

  function NodeError(rules: Rules, granted: map<string, Risk>, seen: set<string>, n: Node): Option<ValidationError> {
    if !rules.token(n.id, 160) || !rules.token(n.kind, 120) || n.kindVersion < 1 || n.id in seen ||
       !rules.configOk(n.config) || !rules.schemaOk(n.outputSchema) then Some(InvalidDefinition)
    else if !RetryOk(n.retry) || !ModeOk(n.errors.mode) then Some(InvalidDefinition)
    else if (n.kind, n.kindVersion) !in rules.registry then Some(ProviderMissing)
    else
      var descriptor := rules.registry[(n.kind, n.kindVersion)];
      if descriptor.capability !in granted || RiskRank(granted[descriptor.capability]) < RiskRank(descriptor.risk)
      then Some(CapabilityDenied)
      else None
  }

  function NodesError(rules: Rules, granted: map<string, Risk>, seen: set<string>,
                      nodes: seq<Node>): Option<ValidationError>
    decreases |nodes|
  {
    if nodes == [] then None
    else
      var e := NodeError(rules, granted, seen, nodes[0]);
      if e.Some? then e else NodesError(rules, granted, seen + {nodes[0].id}, nodes[1..])
  }

  function DependencyIds(ds: seq<Dependency>): set<string> {
    set d | d in ds :: d.versionId
  }

  /** The part of the check on nested kinds that needs no recursion. */
  predicate KindOk(pinned: set<string>, n: Node) {
    if n.kind == "call_workflow" then
      n.config.Config? && n.config.workflowVersionId != "" && n.config.workflowVersionId in pinned
    else if n.kind == "for_each" then
      && n.config.Config?
      && n.config.childGraph.Some? == (n.config.workflowVersionId == "")
      && (n.config.workflowVersionId != "" ==> n.config.workflowVersionId in pinned)
    else true
  }

  predicate BindingOk(rules: Rules, nodes: seq<Node>, n: Node, name: string, b: Binding)
    requires (n.kind, n.kindVersion) in rules.registry
  {
    && rules.token(name, 120)
    && (b.sourceNode != "" ==>
          && rules.token(b.sourcePort, 120)
          && exists i :: 0 <= i < |nodes| && nodes[i].id == b.sourceNode &&
                rules.hasPort(nodes[i].outputSchema, b.sourcePort))
    && (b.inputPath != "" ==> rules.token(b.inputPath, 200))
    && (if b.sourceNode != "" then 1 else 0) + (if b.inputPath != "" then 1 else 0) +
          (if b.literal.Some? then 1 else 0) == 1
    && rules.hasPort(rules.registry[(n.kind, n.kindVersion)].inputSchema, name)
  }

  predicate InputsOk(rules: Rules, nodes: seq<Node>)
    requires forall i | 0 <= i < |nodes| :: (nodes[i].kind, nodes[i].kindVersion) in rules.registry
  {
    forall i, k | 0 <= i < |nodes| && 0 <= k < |nodes[i].inputs| ::
      BindingOk(rules, nodes, nodes[i], nodes[i].inputs[k].0, nodes[i].inputs[k].1)
  }

  function PortKey(e: Edge): string {
    e.target + ":" + e.targetPort
  }

  /** One edge against the nodes, and against the edges before it. */
  predicate EdgeOk(rules: Rules, nodes: seq<Node>, before: seq<Edge>, e: Edge)
    requires forall i | 0 <= i < |nodes| :: (nodes[i].kind, nodes[i].kindVersion) in rules.registry
  {
    && rules.token(e.id, 200) && rules.token(e.sourcePort, 120) && rules.token(e.targetPort, 120)
    && e.source != e.target
    && (forall i | 0 <= i < |before| :: before[i].id != e.id && PortKey(before[i]) != PortKey(e))
    && (exists i :: 0 <= i < |nodes| && nodes[i].id == e.source && rules.hasPort(nodes[i].outputSchema, e.sourcePort))
    && (exists i :: 0 <= i < |nodes| && nodes[i].id == e.target &&
                    rules.hasPort(rules.registry[(nodes[i].kind, nodes[i].kindVersion)].inputSchema, e.targetPort))
  }

  predicate EdgesOk(rules: Rules, nodes: seq<Node>, edges: seq<Edge>)
    requires forall i | 0 <= i < |nodes| :: (nodes[i].kind, nodes[i].kindVersion) in rules.registry
  {
    forall k | 0 <= k < |edges| :: EdgeOk(rules, nodes, edges[..k], edges[k])
  }

  predicate DependencyOk(rules: Rules, ancestry: set<string>, d: Dependency) {
    && rules.token(d.workflowId, 200) && rules.token(d.versionId, 200) && |d.checksum| == 64
    && d.versionId in rules.resolver
    && rules.resolver[d.versionId].workflowId == d.workflowId
    && rules.resolver[d.versionId].checksum == d.checksum
    && d.versionId !in ancestry
  }

  lemma {:induction false} NodesErrorNone(rules: Rules, granted: map<string, Risk>, seen: set<string>, nodes: seq<Node>)
    requires NodesError(rules, granted, seen, nodes).None?
    ensures forall i | 0 <= i < |nodes| :: (nodes[i].kind, nodes[i].kindVersion) in rules.registry
    ensures forall i | 0 <= i < |nodes| :: nodes[i].id !in seen
    ensures UniqueIds(nodes)
    ensures forall i | 0 <= i < |nodes| :: RetryOk(nodes[i].retry) && ModeOk(nodes[i].errors.mode)
    decreases |nodes|
  {
    if nodes != [] {
      NodesErrorNone(rules, granted, seen + {nodes[0].id}, nodes[1..]);
      assert nodes == [nodes[0]] + nodes[1..];
    }
  }

  /** The error validation reports, if any, for a definition met below the given ancestors. */
  ghost function ValidateError(rules: Rules, d: Definition, ancestry: set<string>, depth: nat): Option<ValidationError>
    decreases MAX_DEPTH + 1 - depth, 1, 0
  {
    if !HeaderOk(d, depth) || !CapabilitiesOk(rules, d.capabilities) then Some(InvalidDefinition)
    else
      var nodesError := NodesError(rules, Granted(d.capabilities), {}, d.nodes);
      if nodesError.Some? then nodesError
      else
        NodesErrorNone(rules, Granted(d.capabilities), {}, d.nodes);
        var kinds := KindsError(rules, d, 0, ancestry, depth);
        if kinds.Some? then kinds
        else if !InputsOk(rules, d.nodes) || !EdgesOk(rules, d.nodes, d.edges) ||
          !Acyclic(d.edges) then Some(InvalidDefinition)
        else DependenciesError(rules, d, 0, ancestry, depth)
  }

  ghost function KindsError(rules: Rules, d: Definition, i: nat, ancestry: set<string>,
                            depth: nat): Option<ValidationError>
    requires i <= |d.nodes| && depth <= MAX_DEPTH
    decreases MAX_DEPTH + 1 - depth, 0, |d.nodes| - i
  {
    if i == |d.nodes| then None
    else
      var n := d.nodes[i];
      if !KindOk(DependencyIds(d.dependencies), n) then Some(InvalidDefinition)
      else if n.kind == "for_each" && n.config.childGraph.Some? then
        var child := ValidateError(rules, n.config.childGraph.value, ancestry, depth + 1);
        if child.Some? then child else KindsError(rules, d, i + 1, ancestry, depth)
      else KindsError(rules, d, i + 1, ancestry, depth)
  }

  ghost function DependenciesError(rules: Rules, d: Definition, i: nat, ancestry: set<string>,
                                   depth: nat): Option<ValidationError>
    requires i <= |d.dependencies| && depth <= MAX_DEPTH
    decreases MAX_DEPTH + 1 - depth, 0, |d.dependencies| - i
  {
    if i == |d.dependencies| then None
    else
      var dep := d.dependencies[i];
      if !DependencyOk(rules, ancestry, dep) then Some(InvalidDefinition)
      else
        var child := ValidateError(rules, rules.resolver[dep.versionId].definition, ancestry + {dep.versionId},
                                   depth + 1);
        if child.Some? then child else DependenciesError(rules, d, i + 1, ancestry, depth)
  }

  ghost predicate Accepted(rules: Rules, d: Definition, ancestry: set<string>, depth: nat) {
    ValidateError(rules, d, ancestry, depth).None?
  }

  // ---------------------------------------------------------- what it means

  /** Fewer ancestors and less depth never turn an accepted definition away. */
  lemma {:induction false} AcceptedMonotone(rules: Rules, d: Definition, ancestry: set<string>, depth: nat,
                                            fewer: set<string>, shallower: nat)
    requires Accepted(rules, d, ancestry, depth) && fewer <= ancestry && shallower <= depth
    ensures Accepted(rules, d, fewer, shallower)
    decreases MAX_DEPTH + 1 - depth, 1, 0
  {
    NodesErrorNone(rules, Granted(d.capabilities), {}, d.nodes);
    KindsMonotone(rules, d, 0, ancestry, depth, fewer, shallower);
    DependenciesMonotone(rules, d, 0, ancestry, depth, fewer, shallower);
  }

  lemma {:induction false} KindsMonotone(rules: Rules, d: Definition, i: nat, ancestry: set<string>, depth: nat,
                                         fewer: set<string>, shallower: nat)
    requires i <= |d.nodes| && depth <= MAX_DEPTH && fewer <= ancestry && shallower <= depth
    requires KindsError(rules, d, i, ancestry, depth).None?
    ensures KindsError(rules, d, i, fewer, shallower).None?
    decreases MAX_DEPTH + 1 - depth, 0, |d.nodes| - i
  {
    if i < |d.nodes| {
      var n := d.nodes[i];
      if n.kind == "for_each" && n.config.childGraph.Some? {
        AcceptedMonotone(rules, n.config.childGraph.value, ancestry, depth + 1, fewer, shallower + 1);
      }
      KindsMonotone(rules, d, i + 1, ancestry, depth, fewer, shallower);
    }
  }

  lemma {:induction false} DependenciesMonotone(rules: Rules, d: Definition, i: nat, ancestry: set<string>, depth: nat,
                                                fewer: set<string>, shallower: nat)
    requires i <= |d.dependencies| && depth <= MAX_DEPTH && fewer <= ancestry && shallower <= depth
    requires DependenciesError(rules, d, i, ancestry, depth).None?
    ensures DependenciesError(rules, d, i, fewer, shallower).None?
    decreases MAX_DEPTH + 1 - depth, 0, |d.dependencies| - i
  {
    if i < |d.dependencies| {
      var dep := d.dependencies[i];
      AcceptedMonotone(rules, rules.resolver[dep.versionId].definition, ancestry + {dep.versionId}, depth + 1,
                       fewer + {dep.versionId}, shallower + 1);
      DependenciesMonotone(rules, d, i + 1, ancestry, depth, fewer, shallower);
    }
  }

  /** The definition a node starts when it runs, if it is a nesting node that resolves. */
  function ChildOf(rules: Rules, n: Node): Option<Definition> {
    if !n.config.Config? then None
    else if n.kind == "call_workflow" then
      if n.config.workflowVersionId != "" && n.config.workflowVersionId in rules.resolver
      then Some(rules.resolver[n.config.workflowVersionId].definition) else None
    else if n.kind == "for_each" then
      if n.config.childGraph.Some? then
        if n.config.workflowVersionId != "" then None else n.config.childGraph
      else if n.config.workflowVersionId != "" && n.config.workflowVersionId in rules.resolver
      then Some(rules.resolver[n.config.workflowVersionId].definition) else None
    else None
  }

  /** The ancestors validation met the child below. */
  function ChildAncestry(n: Node, ancestry: set<string>): set<string> {
    if n.config.Config? && n.config.workflowVersionId != "" then ancestry + {n.config.workflowVersionId} else ancestry
  }

  lemma {:induction false} KindAccepted(rules: Rules, d: Definition, i: nat, k: nat, ancestry: set<string>, depth: nat)
    requires i <= k < |d.nodes| && depth <= MAX_DEPTH
    requires KindsError(rules, d, i, ancestry, depth).None?
    ensures KindOk(DependencyIds(d.dependencies), d.nodes[k])
    ensures d.nodes[k].kind == "for_each" && d.nodes[k].config.childGraph.Some? ==>
              Accepted(rules, d.nodes[k].config.childGraph.value, ancestry, depth + 1)
    decreases k - i
  {
    if i < k { KindAccepted(rules, d, i + 1, k, ancestry, depth); }
  }

  lemma {:induction false} DependencyAccepted(rules: Rules, d: Definition, i: nat, k: nat, ancestry: set<string>,
                                              depth: nat)
    requires i <= k < |d.dependencies| && depth <= MAX_DEPTH
    requires DependenciesError(rules, d, i, ancestry, depth).None?
    ensures DependencyOk(rules, ancestry, d.dependencies[k])
    ensures Accepted(rules, rules.resolver[d.dependencies[k].versionId].definition,
                     ancestry + {d.dependencies[k].versionId}, depth + 1)
    decreases k - i
  {
    if i < k { DependencyAccepted(rules, d, i + 1, k, ancestry, depth); }
  }

  /** Every nesting node of an accepted definition resolves, to a definition accepted one level down. */
  lemma ChildAccepted(rules: Rules, d: Definition, n: Node, ancestry: set<string>, depth: nat)
    requires Accepted(rules, d, ancestry, depth) && n in d.nodes
    ensures n.kind == "call_workflow" || n.kind == "for_each" ==> ChildOf(rules, n).Some?
    ensures ChildOf(rules, n).Some? ==> depth < MAX_DEPTH
    ensures ChildOf(rules, n).Some? ==> Accepted(rules, ChildOf(rules, n).value, ChildAncestry(n, ancestry), depth + 1)
  {
    NodesErrorNone(rules, Granted(d.capabilities), {}, d.nodes);
    var k :| 0 <= k < |d.nodes| && d.nodes[k] == n;
    KindAccepted(rules, d, 0, k, ancestry, depth);
    if (n.kind == "call_workflow" || n.kind == "for_each") && n.config.workflowVersionId != "" {
      assert n.config.workflowVersionId in DependencyIds(d.dependencies);
      var j :| 0 <= j < |d.dependencies| && d.dependencies[j].versionId == n.config.workflowVersionId;
      DependencyAccepted(rules, d, 0, j, ancestry, depth);
    }
  }

  /** The fresh validation a nested execution starts with accepts the child. */
  lemma NestedValidationAccepts(rules: Rules, d: Definition, n: Node, ancestry: set<string>, depth: nat)
    requires Accepted(rules, d, ancestry, depth) && n in d.nodes && ChildOf(rules, n).Some?
    ensures Accepted(rules, ChildOf(rules, n).value, {}, 0)
  {
    ChildAccepted(rules, d, n, ancestry, depth);
    AcceptedMonotone(rules, ChildOf(rules, n).value, ChildAncestry(n, ancestry), depth + 1, {}, 0);
  }

  ghost predicate Starts(rules: Rules, parent: Definition, child: Definition) {
    exists n :: n in parent.nodes && ChildOf(rules, n) == Some(child)
  }

  /** Each definition is started by a node of the one before it. */
  ghost predicate NestedChain(rules: Rules, chain: seq<Definition>) {
    forall i | 0 <= i < |chain| - 1 :: Starts(rules, chain[i], chain[i + 1])
  }

  lemma AcceptedDepth(rules: Rules, d: Definition, ancestry: set<string>, depth: nat)
    requires Accepted(rules, d, ancestry, depth)
    ensures depth <= MAX_DEPTH
  {
  }

  lemma {:induction false} ChainDepth(rules: Rules, chain: seq<Definition>, ancestry: set<string>, depth: nat)
    requires chain != [] && NestedChain(rules, chain) && Accepted(rules, chain[0], ancestry, depth)
    ensures depth + |chain| <= MAX_DEPTH + 1
    decreases |chain|
  {
    hide Accepted, ChildOf;
    AcceptedDepth(rules, chain[0], ancestry, depth);
    if |chain| > 1 {
      assert Starts(rules, chain[0], chain[1]);
      var n :| n in chain[0].nodes && ChildOf(rules, n) == Some(chain[1]);
      ChildAccepted(rules, chain[0], n, ancestry, depth);
      var rest := chain[1..];
      forall i | 0 <= i < |rest| - 1 ensures Starts(rules, rest[i], rest[i + 1]) {
        assert Starts(rules, chain[i + 1], chain[i + 2]);
      }
      ChainDepth(rules, rest, ChildAncestry(n, ancestry), depth + 1);
    }
  }

  /** No run of a published workflow nests more than seventeen definitions. */
  lemma NestingBounded(rules: Rules, chain: seq<Definition>)
    requires chain != [] && NestedChain(rules, chain) && Accepted(rules, chain[0], {}, 0)
    ensures |chain| <= 17
  {
    ChainDepth(rules, chain, {}, 0);
  }

  // --------------------------------------------------------------- the loops

  lemma EdgesOkWithin(rules: Rules, nodes: seq<Node>, edges: seq<Edge>)
    requires forall i | 0 <= i < |nodes| :: (nodes[i].kind, nodes[i].kindVersion) in rules.registry
    requires EdgesOk(rules, nodes, edges)
    ensures EdgesWithin(edges, NodeIds(nodes))
  {
    forall e | e in edges ensures e.source in NodeIds(nodes) && e.target in NodeIds(nodes) {
      var k :| 0 <= k < |edges| && edges[k] == e;
      assert EdgeOk(rules, nodes, edges[..k], edges[k]);
    }
  }

  method CheckNodes(rules: Rules, granted: map<string, Risk>, nodes: seq<Node>) returns (error: Option<ValidationError>)
    ensures error == NodesError(rules, granted, {}, nodes)
  {
    var seen: set<string> := {};
    assert nodes[0..] == nodes;
    for i := 0 to |nodes|
      invariant NodesError(rules, granted, {}, nodes) == NodesError(rules, granted, seen, nodes[i..])
    {
      assert nodes[i..][1..] == nodes[i + 1..];
      error := NodeError(rules, granted, seen, nodes[i]);
      if error.Some? { return; }
      seen := seen + {nodes[i].id};
    }
    return None;
  }

  method CollectCapabilities(cs: seq<Capability>) returns (granted: map<string, Risk>)
    ensures granted == Granted(cs)
  {
    granted := map[];
    for i := 0 to |cs|
      invariant granted == Granted(cs[..i])
    {
      assert cs[..i + 1][..i] == cs[..i];
      granted := granted[cs[i].name := cs[i].risk];
    }
    assert cs[..|cs|] == cs;
  }

  /** An edge is acceptable when nothing before it uses its identity or port, and it is acceptable alone. */
  lemma EdgeOkAlone(rules: Rules, nodes: seq<Node>, before: seq<Edge>, e: Edge)
    requires forall i | 0 <= i < |nodes| :: (nodes[i].kind, nodes[i].kindVersion) in rules.registry
    ensures EdgeOk(rules, nodes, before, e) <==>
      EdgeOk(rules, nodes, [], e) && forall i | 0 <= i < |before| ::
        before[i].id != e.id && PortKey(before[i]) != PortKey(e)
  {
  }

  /** Ports and identifiers already used are remembered in sets rather than searched for. */
  method CheckEdges(rules: Rules, nodes: seq<Node>, edges: seq<Edge>) returns (ok: bool)
    requires forall i | 0 <= i < |nodes| :: (nodes[i].kind, nodes[i].kindVersion) in rules.registry
    ensures ok == EdgesOk(rules, nodes, edges)
  {
    hide EdgeOk;
    var edgeIds: set<string> := {};
    var boundPorts: set<string> := {};
    for k := 0 to |edges|
      invariant edgeIds == set e | e in edges[..k] :: e.id
      invariant boundPorts == set e | e in edges[..k] :: PortKey(e)
      invariant forall j | 0 <= j < k :: EdgeOk(rules, nodes, edges[..j], edges[j])
    {
      var e := edges[k];
      var unused := e.id !in edgeIds && PortKey(e) !in boundPorts;
      assert unused <==> forall i | 0 <= i < |edges[..k]| ::
        edges[..k][i].id != e.id && PortKey(edges[..k][i]) != PortKey(e);
      EdgeOkAlone(rules, nodes, edges[..k], e);
      if !unused || !EdgeOk(rules, nodes, [], e) {
        return false;
      }
      assert edges[..k + 1] == edges[..k] + [e];
      edgeIds := edgeIds + {e.id};
      boundPorts := boundPorts + {PortKey(e)};
    }
    return true;
  }

  method Validate(rules: Rules, d: Definition, ancestry: set<string>, depth: nat)
    returns (error: Option<ValidationError>)
    ensures error == ValidateError(rules, d, ancestry, depth)
    decreases MAX_DEPTH + 1 - depth
  {
    if !HeaderOk(d, depth) || !CapabilitiesOk(rules, d.capabilities) {
      return Some(InvalidDefinition);
    }
    var granted := CollectCapabilities(d.capabilities);
    error := CheckNodes(rules, granted, d.nodes);
    if error.Some? { return; }
    NodesErrorNone(rules, granted, {}, d.nodes);
    var pinned := DependencyIds(d.dependencies);
    for i := 0 to |d.nodes|
      invariant KindsError(rules, d, 0, ancestry, depth) == KindsError(rules, d, i, ancestry, depth)
    {
      var n := d.nodes[i];
      if !KindOk(pinned, n) {
        return Some(InvalidDefinition);
      }
      if n.kind == "for_each" && n.config.childGraph.Some? {
        error := Validate(rules, n.config.childGraph.value, ancestry, depth + 1);
        if error.Some? { return; }
      }
    }
    if !InputsOk(rules, d.nodes) {
      return Some(InvalidDefinition);
    }
    var edgesOk := CheckEdges(rules, d.nodes, d.edges);
    if !edgesOk {
      return Some(InvalidDefinition);
    }
    EdgesOkWithin(rules, d.nodes, d.edges);
    var ids := set n | n in d.nodes :: n.id;
    var visited := VisitedCount(ids, d.edges);
    if visited != |ids| {
      return Some(InvalidDefinition);
    }
    for i := 0 to |d.dependencies|
      invariant DependenciesError(rules, d, 0, ancestry, depth) == DependenciesError(rules, d, i, ancestry, depth)
    {
      var dep := d.dependencies[i];
      if !DependencyOk(rules, ancestry, dep) {
        return Some(InvalidDefinition);
      }
      error := Validate(rules, rules.resolver[dep.versionId].definition, ancestry + {dep.versionId}, depth + 1);
      if error.Some? { return; }
    }
    return None;
  }
}
