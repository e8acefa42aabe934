/** The data of a published workflow graph and of one run of it. */
module WorkflowTypes {
  import opened OrderedStrings
  import opened JsonValues

  datatype Risk = Read | Write | Destructive

  /** A JSON schema, known only through what it accepts and which ports it declares. */
  datatype Schema = Schema(id: nat)

  datatype Capability = Capability(name: string, risk: Risk)

  datatype Retry = Retry(maxAttempts: int, cooldownSeconds: int)

  datatype ErrorPolicy = ErrorPolicy(mode: string, acceptsPartial: bool)

  datatype Binding = Binding(sourceNode: string, sourcePort: string, inputPath: string, literal: Option<Json>)

  /** The fields of a node's configuration that the engine itself reads. */
  datatype Config =
    | Undecodable
    | Config(workflowVersionId: string, childGraph: Option<Definition>, concurrency: int,
             maximumItems: int, sequential: bool, errorMode: string)

  datatype Node = Node(id: string, kind: string, kindVersion: int, config: Config,
                       inputs: seq<(string, Binding)>, outputSchema: Schema, retry: Retry, errors: ErrorPolicy)

  datatype Edge = Edge(id: string, source: string, sourcePort: string, target: string, targetPort: string)

  datatype Dependency = Dependency(workflowId: string, versionId: string, checksum: string)

  datatype Definition = Definition(formatVersion: int, capabilities: seq<Capability>, nodes: seq<Node>,
                                   edges: seq<Edge>, dependencies: seq<Dependency>)

  /** What the registry publishes about one kind of node. */
  datatype Descriptor = Descriptor(capability: string, risk: Risk, inputSchema: Schema, outputSchema: Schema,
                                   supportsReconcile: bool)

  /** What a version identifier resolves to. */
  datatype Pinned = Pinned(workflowId: string, checksum: string, definition: Definition)

  ghost function NodeIds(nodes: seq<Node>): set<string> {
    set n | n in nodes :: n.id
  }

  ghost predicate UniqueIds(nodes: seq<Node>) {
    forall i, j | 0 <= i < j < |nodes| :: nodes[i].id != nodes[j].id
  }

  /** Every edge joins two declared nodes. */
  ghost predicate EdgesWithin(edges: seq<Edge>, ids: set<string>) {
    forall e | e in edges :: e.source in ids && e.target in ids
  }
}
