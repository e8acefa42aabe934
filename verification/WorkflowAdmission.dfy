/**
 * What an accepted workflow definition may contain, and in particular which risks its nodes may carry. Models
 * validate.go lines 17-169 as one condition, independently of the order in which validation checks it.
 */
module WorkflowAdmission {
  import opened OrderedStrings
  import opened WorkflowTypes
  import opened WorkflowGraph
  import opened WorkflowValidation

  // -------------------------------------------------------------- the grants

  /** A grant covers its own risk and the lesser ones. */
  predicate Covers(grant: Risk, risk: Risk) {
    match grant
    case Destructive => true
    case Write => risk == Read || risk == Write
    case Read => risk == Read
  }

  /** The last requirement for a capability, which is the one that counts. */
  predicate LastGrant(cs: seq<Capability>, name: string, k: int) {
    0 <= k < |cs| && cs[k].name == name && forall j | k < j < |cs| :: cs[j].name != name
  }

  /** The definition asks for the capability of the node's provider, at the provider's risk or above. */
  ghost predicate MayRun(rules: Rules, d: Definition, n: Node) requires (n.kind, n.kindVersion) in rules.registry {
    var provider := rules.registry[(n.kind, n.kindVersion)];
    exists k :: LastGrant(d.capabilities, provider.capability, k) && Covers(d.capabilities[k].risk, provider.risk)
  }

  lemma {:induction false} GrantedIsLast(cs: seq<Capability>, name: string)
    ensures name in Granted(cs) <==> exists k :: LastGrant(cs, name, k)
    ensures forall k | LastGrant(cs, name, k) :: name in Granted(cs) && Granted(cs)[name] == cs[k].risk
  {
    if cs != [] {
      var init := cs[..|cs| - 1];
      GrantedIsLast(init, name);
      assert cs == init + [cs[|cs| - 1]];
      if cs[|cs| - 1].name == name {
        assert LastGrant(cs, name, |cs| - 1);
      } else {
        forall k ensures LastGrant(cs, name, k) <==> LastGrant(init, name, k) {
          if LastGrant(init, name, k) { assert cs[k] == init[k]; }
          if LastGrant(cs, name, k) { assert cs[k] == init[k]; }
        }
      }
    }
  }

  lemma RanksCover(grant: Risk, risk: Risk)
    ensures RiskRank(grant) >= RiskRank(risk) <==> Covers(grant, risk)
  {
  }

  lemma MayRunIff(rules: Rules, d: Definition, n: Node)
    requires (n.kind, n.kindVersion) in rules.registry
    ensures
      var provider := rules.registry[(n.kind, n.kindVersion)];
      MayRun(rules, d, n) <==>
        provider.capability in Granted(d.capabilities) &&
        RiskRank(Granted(d.capabilities)[provider.capability]) >= RiskRank(provider.risk)
  {
    hide Granted, RiskRank, Covers;
    var provider := rules.registry[(n.kind, n.kindVersion)];
    GrantedIsLast(d.capabilities, provider.capability);
    if k :| LastGrant(d.capabilities, provider.capability, k) { RanksCover(d.capabilities[k].risk, provider.risk); }
    forall k | LastGrant(d.capabilities, provider.capability, k)
      ensures Granted(d.capabilities)[provider.capability] == d.capabilities[k].risk
      ensures RiskRank(d.capabilities[k].risk) >= RiskRank(provider.risk) <==>
        Covers(d.capabilities[k].risk, provider.risk)
    {
      RanksCover(d.capabilities[k].risk, provider.risk);
    }
  }

  // --------------------------------------------------------------- the nodes

  /** A node by itself, apart from its provider. */
  ghost predicate Shaped(rules: Rules, d: Definition, i: nat) requires i < |d.nodes| {
    var n := d.nodes[i];
    && rules.token(n.id, 160) && rules.token(n.kind, 120) && n.kindVersion >= 1
    && (forall j | 0 <= j < i :: d.nodes[j].id != n.id)
    && rules.configOk(n.config) && rules.schemaOk(n.outputSchema)
    && ((n.retry.maxAttempts == 0 && n.retry.cooldownSeconds == 0)
        || (n.retry.maxAttempts == 3 && n.retry.cooldownSeconds == 60))
    && n.errors.mode in {"", "fail", "continue", "collect"}
  }

  ghost predicate Provided(rules: Rules, d: Definition, i: nat) requires i < |d.nodes| {
    (d.nodes[i].kind, d.nodes[i].kindVersion) in rules.registry
  }

  ghost predicate NodeFine(rules: Rules, d: Definition, i: nat) requires i < |d.nodes| {
    Shaped(rules, d, i) && Provided(rules, d, i) && MayRun(rules, d, d.nodes[i])
  }

  ghost function NodeVerdict(rules: Rules, d: Definition, i: nat): Option<ValidationError> requires i < |d.nodes| {
    if !Shaped(rules, d, i) then Some(InvalidDefinition)
    else if !Provided(rules, d, i) then Some(ProviderMissing)
    else if !MayRun(rules, d, d.nodes[i]) then Some(CapabilityDenied)
    else None
  }

  ghost function IdsBefore(d: Definition, i: nat): set<string> requires i <= |d.nodes| {
    set j | 0 <= j < i :: d.nodes[j].id
  }

  lemma NodeErrorIs(rules: Rules, d: Definition, i: nat)
    requires i < |d.nodes|
    ensures NodeError(rules, Granted(d.capabilities), IdsBefore(d, i), d.nodes[i]) == NodeVerdict(rules, d, i)
  {
    hide Granted, RiskRank, MayRun;
    if Provided(rules, d, i) { MayRunIff(rules, d, d.nodes[i]); }
  }

  /** The node check gives the verdict on the first node that is not fine. */
  lemma {:induction false} NodesErrorIs(rules: Rules, d: Definition, i: nat)
    requires i <= |d.nodes|
    ensures
      var e := NodesError(rules, Granted(d.capabilities), IdsBefore(d, i), d.nodes[i..]);
      && (e.None? <==> forall k | i <= k < |d.nodes| :: NodeFine(rules, d, k))
      && (forall k | i <= k < |d.nodes| && !NodeFine(rules, d, k) && (forall j | i <= j < k :: NodeFine(rules, d, j)) ::
            e == NodeVerdict(rules, d, k))
    decreases |d.nodes| - i
  {
    hide Granted, NodeError, Shaped, Provided, MayRun;
    if i < |d.nodes| {
      NodeErrorIs(rules, d, i);
      NodesErrorIs(rules, d, i + 1);
      assert d.nodes[i..][1..] == d.nodes[i + 1..];
      assert d.nodes[i..][0] == d.nodes[i];
      assert IdsBefore(d, i) + {d.nodes[i].id} == IdsBefore(d, i + 1);
      assert NodeVerdict(rules, d, i).None? <==> NodeFine(rules, d, i);
      assert NodesError(rules, Granted(d.capabilities), IdsBefore(d, i), d.nodes[i..])
          == if NodeFine(rules, d, i) then
            NodesError(rules, Granted(d.capabilities), IdsBefore(d, i + 1), d.nodes[i + 1..])
             else NodeVerdict(rules, d, i);
    }
  }

  // --------------------------------------------------- inputs, edges, nesting

  ghost predicate AllProvided(rules: Rules, d: Definition) {
    forall i | 0 <= i < |d.nodes| :: Provided(rules, d, i)
  }

  /** The output schema of a declared node has the port. */
  ghost predicate OutputPort(rules: Rules, d: Definition, id: string, port: string) {
    exists i :: 0 <= i < |d.nodes| && d.nodes[i].id == id && rules.hasPort(d.nodes[i].outputSchema, port)
  }

  /** The input schema of the provider of a declared node has the port. */
  ghost predicate InputPort(rules: Rules, d: Definition, id: string, port: string) requires AllProvided(rules, d) {
    exists i :: 0 <= i < |d.nodes| && d.nodes[i].id == id && InputPortOf(rules, d, i, port)
  }

  ghost predicate InputPortOf(rules: Rules, d: Definition, i: nat, port: string)
    requires i < |d.nodes| && AllProvided(rules, d)
  {
    assert Provided(rules, d, i);
    rules.hasPort(rules.registry[(d.nodes[i].kind, d.nodes[i].kindVersion)].inputSchema, port)
  }

  /** A binding names exactly one of a source port, an input path and a literal, under a port of the provider. */
  ghost predicate BindingFine(rules: Rules, d: Definition, i: nat, name: string, b: Binding)
    requires i < |d.nodes| && AllProvided(rules, d)
  {
    && rules.token(name, 120) && InputPortOf(rules, d, i, name)
    && match (b.sourceNode != "", b.inputPath != "", b.literal.Some?)
       case (true, false, false) => rules.token(b.sourcePort, 120) && OutputPort(rules, d, b.sourceNode, b.sourcePort)
       case (false, true, false) => rules.token(b.inputPath, 200)
       case (false, false, true) => true
       case _ => false
  }

  /** An edge joins ports of two different declared nodes; no two edges share an identity or a target port. */
  ghost predicate EdgeFine(rules: Rules, d: Definition, k: nat) requires k < |d.edges| && AllProvided(rules, d) {
    var e := d.edges[k];
    && rules.token(e.id, 200) && rules.token(e.sourcePort, 120) && rules.token(e.targetPort, 120)
    && e.source != e.target && OutputPort(rules, d, e.source, e.sourcePort) &&
          InputPort(rules, d, e.target, e.targetPort)
    && forall j | 0 <= j < k ::
         d.edges[j].id != e.id && d.edges[j].target + ":" + d.edges[j].targetPort != e.target + ":" + e.targetPort
  }

  ghost predicate Pinned(d: Definition, version: string) {
    exists k :: 0 <= k < |d.dependencies| && d.dependencies[k].versionId == version
  }

  /** A nesting node names its child in exactly one way, and a version only if the definition pins it. */
  ghost predicate NestingFine(d: Definition, n: Node) {
    && (n.kind == "call_workflow" ==>
          n.config.Config? && n.config.workflowVersionId != "" && Pinned(d, n.config.workflowVersionId))
    && (n.kind == "for_each" ==>
          && n.config.Config?
          && match n.config.childGraph
             case Some(_) => n.config.workflowVersionId == ""
             case None => n.config.workflowVersionId != "" && Pinned(d, n.config.workflowVersionId))
  }

  /** A dependency resolves to what it pins, and is no ancestor. */
  predicate DependencyFine(rules: Rules, ancestry: set<string>, dep: Dependency) {
    && rules.token(dep.workflowId, 200) && rules.token(dep.versionId, 200) && |dep.checksum| == 64
    && dep.versionId in rules.resolver && dep.versionId !in ancestry
    && rules.resolver[dep.versionId].workflowId == dep.workflowId &&
          rules.resolver[dep.versionId].checksum == dep.checksum
  }

  ghost predicate HeaderFine(rules: Rules, d: Definition, depth: nat) {
    && d.formatVersion == 2 && 1 <= |d.nodes| <= 1000 && |d.edges| <= 5000 && depth <= 16
    && forall k | 0 <= k < |d.capabilities| :: rules.token(d.capabilities[k].name, 160)
  }

  /** Everything validation asks of a definition itself. */
  ghost predicate DefinitionFine(rules: Rules, d: Definition, ancestry: set<string>, depth: nat) {
    && HeaderFine(rules, d, depth) && (forall i | 0 <= i < |d.nodes| :: NodeFine(rules, d, i))
    && AllProvided(rules, d) && (forall i | 0 <= i < |d.nodes| :: NestingFine(d, d.nodes[i]))
    && (forall i, k | 0 <= i < |d.nodes| && 0 <= k < |d.nodes[i].inputs| ::
          BindingFine(rules, d, i, d.nodes[i].inputs[k].0, d.nodes[i].inputs[k].1))
    && (forall k | 0 <= k < |d.edges| :: EdgeFine(rules, d, k)) && Acyclic(d.edges)
    && forall k | 0 <= k < |d.dependencies| :: DependencyFine(rules, ancestry, d.dependencies[k])
  }

  predicate HasGraph(n: Node) {
    n.kind == "for_each" && n.config.Config? && n.config.childGraph.Some?
  }

  /** The same of the definition and of every graph and version below it. */
  ghost predicate Admissible(rules: Rules, d: Definition, ancestry: set<string>, depth: nat)
    decreases 17 - depth
  {
    && DefinitionFine(rules, d, ancestry, depth)
    && (forall i | 0 <= i < |d.nodes| && HasGraph(d.nodes[i]) ::
          Admissible(rules, d.nodes[i].config.childGraph.value, ancestry, depth + 1))
    && forall k | 0 <= k < |d.dependencies| ::
         var version := d.dependencies[k].versionId;
         Admissible(rules, rules.resolver[version].definition, ancestry + {version}, depth + 1)
  }

  // --------------------------------------------------------------- the iff

  lemma BindingsIff(rules: Rules, d: Definition)
    requires AllProvided(rules, d)
    requires forall i | 0 <= i < |d.nodes| :: (d.nodes[i].kind, d.nodes[i].kindVersion) in rules.registry
    ensures InputsOk(rules, d.nodes) <==>
      forall i, k | 0 <= i < |d.nodes| && 0 <= k < |d.nodes[i].inputs| ::
        BindingFine(rules, d, i, d.nodes[i].inputs[k].0, d.nodes[i].inputs[k].1)
  {
    forall i, k | 0 <= i < |d.nodes| && 0 <= k < |d.nodes[i].inputs|
      ensures BindingOk(rules, d.nodes, d.nodes[i], d.nodes[i].inputs[k].0, d.nodes[i].inputs[k].1)
         <==> BindingFine(rules, d, i, d.nodes[i].inputs[k].0, d.nodes[i].inputs[k].1)
    {
      BindingIff(rules, d, i, d.nodes[i].inputs[k].0, d.nodes[i].inputs[k].1);
    }
  }

  lemma BindingIff(rules: Rules, d: Definition, i: nat, name: string, b: Binding)
    requires i < |d.nodes| && AllProvided(rules, d) && (d.nodes[i].kind, d.nodes[i].kindVersion) in rules.registry
    ensures BindingOk(rules, d.nodes, d.nodes[i], name, b) <==> BindingFine(rules, d, i, name, b)
  {
  }

  lemma EdgesIff(rules: Rules, d: Definition)
    requires AllProvided(rules, d)
    requires forall i | 0 <= i < |d.nodes| :: (d.nodes[i].kind, d.nodes[i].kindVersion) in rules.registry
    ensures EdgesOk(rules, d.nodes, d.edges) <==> forall k | 0 <= k < |d.edges| :: EdgeFine(rules, d, k)
  {
    hide EdgeOk, EdgeFine;
    forall k | 0 <= k < |d.edges| ensures EdgeOk(rules, d.nodes, d.edges[..k], d.edges[k]) <==> EdgeFine(rules, d, k) {
      EdgeIff(rules, d, k);
    }
  }

  lemma EdgeIff(rules: Rules, d: Definition, k: nat)
    requires k < |d.edges| && AllProvided(rules, d)
    requires forall i | 0 <= i < |d.nodes| :: (d.nodes[i].kind, d.nodes[i].kindVersion) in rules.registry
    ensures EdgeOk(rules, d.nodes, d.edges[..k], d.edges[k]) <==> EdgeFine(rules, d, k)
  {
    var e := d.edges[k];
    forall j | 0 <= j < k ensures d.edges[..k][j] == d.edges[j] {}
    assert InputPort(rules, d, e.target, e.targetPort) <==>
      exists i :: 0 <= i < |d.nodes| && d.nodes[i].id == e.target &&
        rules.hasPort(rules.registry[(d.nodes[i].kind, d.nodes[i].kindVersion)].inputSchema, e.targetPort)
    by {
      forall i | 0 <= i < |d.nodes|
        ensures InputPortOf(rules, d, i, e.targetPort) <==>
          rules.hasPort(rules.registry[(d.nodes[i].kind, d.nodes[i].kindVersion)].inputSchema, e.targetPort) {}
    }
  }

  lemma NestingIff(d: Definition, n: Node)
    ensures KindOk(DependencyIds(d.dependencies), n) <==> NestingFine(d, n)
  {
    forall version ensures version in DependencyIds(d.dependencies) <==> Pinned(d, version) {
      if k :| 0 <= k < |d.dependencies| && d.dependencies[k].versionId == version {
        assert d.dependencies[k] in d.dependencies;
      }
    }
  }

  ghost predicate GraphFine(rules: Rules, d: Definition, i: nat, ancestry: set<string>, depth: nat)
    requires i < |d.nodes|
  {
    && NestingFine(d, d.nodes[i])
    && (HasGraph(d.nodes[i]) ==>
          Accepted(rules, d.nodes[i].config.childGraph.value, ancestry, depth + 1))
  }

  lemma {:induction false} KindsIff(rules: Rules, d: Definition, i: nat, ancestry: set<string>, depth: nat)
    requires i <= |d.nodes| && depth <= MAX_DEPTH
    ensures KindsError(rules, d, i, ancestry, depth).None? <==>
      forall k | i <= k < |d.nodes| :: GraphFine(rules, d, k, ancestry, depth)
    decreases |d.nodes| - i
  {
    hide ValidateError;
    if i < |d.nodes| {
      NestingIff(d, d.nodes[i]);
      KindsIff(rules, d, i + 1, ancestry, depth);
      assert KindsError(rules, d, i, ancestry, depth).None? <==>
        GraphFine(rules, d, i, ancestry, depth) && KindsError(rules, d, i + 1, ancestry, depth).None?;
    }
  }

  ghost predicate VersionFine(rules: Rules, d: Definition, k: nat, ancestry: set<string>, depth: nat)
    requires k < |d.dependencies|
  {
    var version := d.dependencies[k].versionId;
    && DependencyFine(rules, ancestry, d.dependencies[k])
    && Accepted(rules, rules.resolver[version].definition, ancestry + {version}, depth + 1)
  }

  lemma {:induction false} DependenciesIff(rules: Rules, d: Definition, i: nat, ancestry: set<string>, depth: nat)
    requires i <= |d.dependencies| && depth <= MAX_DEPTH
    ensures DependenciesError(rules, d, i, ancestry, depth).None? <==>
      forall k | i <= k < |d.dependencies| :: VersionFine(rules, d, k, ancestry, depth)
    decreases |d.dependencies| - i
  {
    hide ValidateError;
    if i < |d.dependencies| {
      DependenciesIff(rules, d, i + 1, ancestry, depth);
      assert DependenciesError(rules, d, i, ancestry, depth).None? <==>
        VersionFine(rules, d, i, ancestry, depth) && DependenciesError(rules, d, i + 1, ancestry, depth).None?;
    }
  }

  lemma HeaderIff(rules: Rules, d: Definition, depth: nat)
    ensures HeaderFine(rules, d, depth) <==> HeaderOk(d, depth) && CapabilitiesOk(rules, d.capabilities)
  {
  }

  /** One level: acceptance is the definition's own condition, with what it nests accepted one level down. */
  lemma AcceptedOneLevel(rules: Rules, d: Definition, ancestry: set<string>, depth: nat)
    ensures Accepted(rules, d, ancestry, depth) <==>
      && DefinitionFine(rules, d, ancestry, depth)
      && (forall i | 0 <= i < |d.nodes| :: GraphFine(rules, d, i, ancestry, depth))
      && forall k | 0 <= k < |d.dependencies| :: VersionFine(rules, d, k, ancestry, depth)
  {
    hide HeaderOk, CapabilitiesOk, Granted, NodesError, KindsError, DependenciesError, InputsOk, EdgesOk, Acyclic,
         NodeFine, BindingFine, EdgeFine, HeaderFine;
    HeaderIff(rules, d, depth);
    NodesErrorIs(rules, d, 0);
    assert d.nodes[0..] == d.nodes && IdsBefore(d, 0) == {};
    if HeaderFine(rules, d, depth) && NodesError(rules, Granted(d.capabilities), {}, d.nodes).None? {
      DepthOf(rules, d, depth);
      FineIsProvided(rules, d);
      NodesErrorNone(rules, Granted(d.capabilities), {}, d.nodes);
      KindsIff(rules, d, 0, ancestry, depth);
      BindingsIff(rules, d);
      EdgesIff(rules, d);
      DependenciesIff(rules, d, 0, ancestry, depth);
      assert forall i | 0 <= i < |d.nodes| :: GraphFine(rules, d, i, ancestry, depth) ==> NestingFine(d, d.nodes[i]);
      assert forall k | 0 <= k < |d.dependencies| ::
        VersionFine(rules, d, k, ancestry, depth) ==> DependencyFine(rules, ancestry, d.dependencies[k]);
    }
  }

  lemma DepthOf(rules: Rules, d: Definition, depth: nat)
    requires HeaderFine(rules, d, depth)
    ensures depth <= MAX_DEPTH
  {
  }

  lemma FineIsProvided(rules: Rules, d: Definition)
    requires forall i | 0 <= i < |d.nodes| :: NodeFine(rules, d, i)
    ensures AllProvided(rules, d)
  {
    forall i | 0 <= i < |d.nodes| ensures Provided(rules, d, i) { assert NodeFine(rules, d, i); }
  }

  /** Validation accepts exactly the admissible definitions. */
  lemma {:induction false} AcceptedIffAdmissible(rules: Rules, d: Definition, ancestry: set<string>, depth: nat)
    ensures Accepted(rules, d, ancestry, depth) <==> Admissible(rules, d, ancestry, depth)
    decreases 17 - depth
  {
    hide Accepted, DefinitionFine, NestingFine;
    AcceptedOneLevel(rules, d, ancestry, depth);
    if DefinitionFine(rules, d, ancestry, depth) {
      FineParts(rules, d, ancestry, depth);
      forall i | 0 <= i < |d.nodes| && HasGraph(d.nodes[i])
        ensures Accepted(rules, d.nodes[i].config.childGraph.value, ancestry, depth + 1)
           <==> Admissible(rules, d.nodes[i].config.childGraph.value, ancestry, depth + 1)
      {
        AcceptedIffAdmissible(rules, d.nodes[i].config.childGraph.value, ancestry, depth + 1);
      }
      forall k | 0 <= k < |d.dependencies|
        ensures
          var version := d.dependencies[k].versionId;
          var child := rules.resolver[version].definition;
          Accepted(rules, child, ancestry + {version}, depth + 1) <==>
            Admissible(rules, child, ancestry + {version}, depth + 1)
      {
        var version := d.dependencies[k].versionId;
        AcceptedIffAdmissible(rules, rules.resolver[version].definition, ancestry + {version}, depth + 1);
      }
      assert forall i | 0 <= i < |d.nodes| :: GraphFine(rules, d, i, ancestry, depth) <==>
        (HasGraph(d.nodes[i]) ==> Admissible(rules, d.nodes[i].config.childGraph.value, ancestry, depth + 1));
      assert forall k | 0 <= k < |d.dependencies| :: VersionFine(rules, d, k, ancestry, depth) <==>
        Admissible(rules, rules.resolver[d.dependencies[k].versionId].definition,
                   ancestry + {d.dependencies[k].versionId}, depth + 1);
    }
  }

  lemma FineParts(rules: Rules, d: Definition, ancestry: set<string>, depth: nat)
    requires DefinitionFine(rules, d, ancestry, depth)
    ensures depth <= 16
    ensures forall k | 0 <= k < |d.dependencies| ::
      DependencyFine(rules, ancestry, d.dependencies[k]) && d.dependencies[k].versionId in rules.resolver
    ensures forall i | 0 <= i < |d.nodes| :: NestingFine(d, d.nodes[i])
  {
  }

  // ------------------------------------------------------------ main results

  /** Every node of an accepted definition is covered by the last grant of its provider's capability. */
  lemma AcceptedIsCovered(rules: Rules, d: Definition, n: Node, ancestry: set<string>, depth: nat)
    requires Accepted(rules, d, ancestry, depth) && n in d.nodes
    ensures (n.kind, n.kindVersion) in rules.registry && MayRun(rules, d, n)
  {
    hide ValidateError, MayRun;
    AcceptedOneLevel(rules, d, ancestry, depth);
    var i :| 0 <= i < |d.nodes| && d.nodes[i] == n;
    assert NodeFine(rules, d, i);
  }

  /** However deep a run nests, each definition itself covers its nodes; a child has no rights from its parent. */
  lemma {:induction false} ChainIsCovered(rules: Rules, chain: seq<Definition>, k: nat, n: Node, ancestry: set<string>,
                                          depth: nat)
    requires NestedChain(rules, chain) && k < |chain| && n in chain[k].nodes &&
      Accepted(rules, chain[0], ancestry, depth)
    ensures (n.kind, n.kindVersion) in rules.registry && MayRun(rules, chain[k], n)
    decreases k
  {
    hide ValidateError, MayRun, ChildOf;
    if k == 0 {
      AcceptedIsCovered(rules, chain[0], n, ancestry, depth);
    } else {
      assert Starts(rules, chain[0], chain[1]);
      var m :| m in chain[0].nodes && ChildOf(rules, m) == Some(chain[1]);
      ChildAccepted(rules, chain[0], m, ancestry, depth);
      var rest := chain[1..];
      forall i | 0 <= i < |rest| - 1 ensures Starts(rules, rest[i], rest[i + 1]) {
        assert Starts(rules, chain[i + 1], chain[i + 2]);
      }
      ChainIsCovered(rules, rest, k - 1, n, ChildAncestry(m, ancestry), depth + 1);
    }
  }

  /**
   * The first node that is not fine decides the error: its own shape, then its provider, then its grant. A node
   * whose grant alone is missing or too small is a denied capability.
   */
  lemma FirstFaultDecides(rules: Rules, d: Definition, i: nat, ancestry: set<string>, depth: nat)
    requires HeaderFine(rules, d, depth) && i < |d.nodes|
    requires (forall j | 0 <= j < i :: NodeFine(rules, d, j)) && !NodeFine(rules, d, i)
    ensures
      var error := ValidateError(rules, d, ancestry, depth);
      && (!Shaped(rules, d, i) ==> error == Some(InvalidDefinition))
      && (Shaped(rules, d, i) && !Provided(rules, d, i) ==> error == Some(ProviderMissing))
      && (Shaped(rules, d, i) && Provided(rules, d, i) && !MayRun(rules, d, d.nodes[i]) ==>
          error == Some(CapabilityDenied))
  {
    hide HeaderOk, CapabilitiesOk, Granted, NodesError, Shaped, Provided, MayRun;
    HeaderIff(rules, d, depth);
    NodesErrorIs(rules, d, 0);
    assert d.nodes[0..] == d.nodes && IdsBefore(d, 0) == {};
  }
}
