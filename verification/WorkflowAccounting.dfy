/** What a finished run says about every node of the workflow. */
module WorkflowAccounting {
  import opened OrderedStrings
  import opened JsonValues
  import opened WorkflowTypes
  import opened WorkflowGraph
  import opened WorkflowValidation
  import opened WorkflowEngine
  import opened WorkflowEffects

  /** An upstream node whose output this node may read. */
  predicate Usable(n: Node, p: Progress, source: string) {
    source in p.outputs && source !in p.skipped && (source in p.partials ==> n.errors.acceptsPartial)
  }

  /** Every node this one is bound to, by input binding or by edge, was usable. */
  ghost predicate SourcesUsable(d: Definition, n: Node, p: Progress) {
    && (forall i | 0 <= i < |n.inputs| && n.inputs[i].1.sourceNode != "" :: Usable(n, p, n.inputs[i].1.sourceNode))
    && (forall e | e in d.edges && e.target == n.id :: Usable(n, p, e.source))
  }

  lemma {:induction false} BindingsUsable(w: World, d: Definition, n: Node, runInput: Raw, p: Progress, i: nat,
                                          acc: map<string, Json>)
    requires i <= |n.inputs| && BindingFields(w, d, n, runInput, p, i, acc).Fields?
    ensures forall k | i <= k < |n.inputs| && n.inputs[k].1.sourceNode != "" :: Usable(n, p, n.inputs[k].1.sourceNode)
    decreases |n.inputs| - i
  {
    if i < |n.inputs| {
      var (name, b) := n.inputs[i];
      var value := if b.sourceNode != "" then Upstream(w, d, n, p, b.sourceNode, b.sourcePort).value
                   else if b.inputPath != "" then w.path(runInput.value, b.inputPath).value
                   else if b.literal.Some? then b.literal.value else JNull;
      BindingsUsable(w, d, n, runInput, p, i + 1, acc[name := value]);
    }
  }

  lemma {:induction false} EdgesUsable(w: World, d: Definition, n: Node, p: Progress, i: nat, acc: map<string, Json>)
    requires i <= |d.edges| && EdgeFields(w, d, n, p, i, acc).Fields?
    ensures forall k | i <= k < |d.edges| && d.edges[k].target == n.id :: Usable(n, p, d.edges[k].source)
    decreases |d.edges| - i
  {
    if i < |d.edges| {
      var e := d.edges[i];
      if e.target != n.id {
        EdgesUsable(w, d, n, p, i + 1, acc);
      } else {
        EdgesUsable(w, d, n, p, i + 1, acc[e.targetPort := Upstream(w, d, n, p, e.source, e.sourcePort).value]);
      }
    }
  }

  lemma ResolvedSourcesUsable(w: World, d: Definition, n: Node, runInput: Raw, p: Progress)
    requires ResolveInput(w, d, n, runInput, p).Resolved?
    ensures SourcesUsable(d, n, p)
  {
    var bound := BindingFields(w, d, n, runInput, p, 0, map[]);
    BindingsUsable(w, d, n, runInput, p, 0, map[]);
    EdgesUsable(w, d, n, p, 0, bound.values);
  }

  /** The nodes walked so far are each accounted for, once, and consistently. */
  ghost predicate Accounted(w: World, d: Definition, req: Request, done: seq<Node>, p: Progress) {
    && p.outputs.Keys + p.failures.Keys + p.skipped == NodeIds(done)
    && p.outputs.Keys !! p.skipped && p.failures.Keys !! p.skipped
    && p.outputs.Keys * p.failures.Keys == p.partials
    && (forall n | n in done && n.id in p.outputs :: OutputAccounted(w, d, req, n, p))
  }

  /** An output is validated, and came from the checkpoint or from usable inputs. */
  ghost predicate OutputAccounted(w: World, d: Definition, req: Request, n: Node, p: Progress)
    requires n.id in p.outputs
  {
    && (n.kind, n.kindVersion) in w.rules.registry
    && Validated(w, w.rules.registry[(n.kind, n.kindVersion)], n, Doc(p.outputs[n.id]))
    && (req.prefix + n.id in req.completed || SourcesUsable(d, n, p))
    && (req.prefix + n.id in req.completed ==>
        req.completed[req.prefix + n.id] == Doc(p.outputs[n.id]) && n.id !in p.partials)
  }

  /** Nothing already recorded changes; at most the given node is added. */
  predicate Grows(p: Progress, p': Progress, id: string) {
    && p.outputs.Keys <= p'.outputs.Keys <= p.outputs.Keys + {id}
    && (forall k | k in p.outputs && k != id :: p'.outputs[k] == p.outputs[k])
    && p.failures.Keys <= p'.failures.Keys <= p.failures.Keys + {id}
    && p.skipped <= p'.skipped <= p.skipped + {id}
    && p.partials <= p'.partials <= p.partials + {id}
  }

  /** The ways one node can leave the walk going. */
  ghost predicate NodeAccounted(w: World, d: Definition, req: Request, n: Node, p: Progress, p': Progress) {
    && Grows(p, p', n.id)
    && n.id in p'.outputs.Keys + p'.failures.Keys + p'.skipped
    && (n.id in p'.skipped ==> p' == p.(skipped := p.skipped + {n.id}))
    && (n.id in p'.partials <==> n.id in p'.outputs && n.id in p'.failures)
    && (n.id in p'.outputs ==> OutputAccounted(w, d, req, n, p'))
  }

  lemma SourcesUsableGrow(d: Definition, n: Node, p: Progress, p': Progress, id: string)
    requires SourcesUsable(d, n, p) && Grows(p, p', id) && id !in p.outputs
    ensures SourcesUsable(d, n, p')
  {
  }

  lemma StepAccounted(w: World, d: Definition, req: Request, ancestry: set<string>, depth: nat, n: Node, p: Progress)
    requires Runnable(w, d, ancestry, depth, n)
    requires n.id !in p.outputs && n.id !in p.failures && n.id !in p.skipped && n.id !in p.partials
    ensures
      var step := StepNode(w, d, req, ancestry, depth, n, p);
      && (step.Next? ==> NodeAccounted(w, d, req, n, p, step.progress))
      && (step.Halt? ==> step.run.result.error.Some?)
  {
    hide Accepted, RunAttempts, ResolveInput;
    RunnableFacts(w, d, ancestry, depth, n);
    var id := req.prefix + n.id;
    if id !in req.completed {
      var resolution := ResolveInput(w, d, n, req.input, p);
      if resolution.Resolved? {
        ResolvedSourcesUsable(w, d, n, req.input, p);
        AcceptedOutputValidated(w, d, req, ancestry, depth, n, resolution.input, 1, false, 0);
        var step := StepNode(w, d, req, ancestry, depth, n, p);
        if step.Next? && n.id in step.progress.outputs {
          SourcesUsableGrow(d, n, p, step.progress, n.id);
        }
      }
    }
  }

  lemma KeysSnoc(ids: set<string>, p: Progress, p': Progress, id: string)
    requires p.outputs.Keys + p.failures.Keys + p.skipped == ids && id !in ids
    requires p.outputs.Keys !! p.skipped && p.failures.Keys !! p.skipped
    requires p.outputs.Keys * p.failures.Keys == p.partials
    requires Grows(p, p', id) && id in p'.outputs.Keys + p'.failures.Keys + p'.skipped
    requires id in p'.skipped ==> p' == p.(skipped := p.skipped + {id})
    requires id in p'.partials <==> id in p'.outputs && id in p'.failures
    ensures p'.outputs.Keys + p'.failures.Keys + p'.skipped == ids + {id}
    ensures p'.outputs.Keys !! p'.skipped && p'.failures.Keys !! p'.skipped
    ensures p'.outputs.Keys * p'.failures.Keys == p'.partials
  {
    forall k ensures k in p'.outputs.Keys * p'.failures.Keys <==> k in p'.partials {
      if k != id { assert k in p.outputs.Keys * p.failures.Keys <==> k in p.partials; }
    }
  }

  lemma AccountedSnoc(w: World, d: Definition, req: Request, done: seq<Node>, n: Node, p: Progress, p': Progress)
    requires Accounted(w, d, req, done, p) && NodeAccounted(w, d, req, n, p, p') && n.id !in NodeIds(done)
    ensures Accounted(w, d, req, done + [n], p')
  {
    assert NodeIds(done + [n]) == NodeIds(done) + {n.id};
    KeysSnoc(NodeIds(done), p, p', n.id);
    forall m | m in done + [n] && m.id in p'.outputs ensures OutputAccounted(w, d, req, m, p') {
      if m in done {
        EarlierOutputAccounted(w, d, req, done, m, n, p, p');
      }
    }
  }

  lemma EarlierOutputAccounted(w: World, d: Definition, req: Request, done: seq<Node>, m: Node, n: Node, p: Progress,
                               p': Progress)
    requires Accounted(w, d, req, done, p) && NodeAccounted(w, d, req, n, p, p')
    requires n.id !in NodeIds(done) && m in done && m.id in p'.outputs
    ensures OutputAccounted(w, d, req, m, p')
  {
    assert m.id in NodeIds(done) && m.id != n.id;
    assert OutputAccounted(w, d, req, m, p);
    if req.prefix + m.id !in req.completed { SourcesUsableGrow(d, m, p, p', n.id); }
  }

  lemma FirstIsNew(done: seq<Node>, order: seq<Node>)
    requires UniqueIds(done + order) && order != []
    ensures order[0].id !in NodeIds(done)
  {
    assert (done + order)[|done|] == order[0];
    forall k | 0 <= k < |done| ensures done[k].id != order[0].id {
      assert (done + order)[k] == done[k];
    }
  }

  lemma {:induction false} RunAccounted(w: World, d: Definition, req: Request, ancestry: set<string>, depth: nat,
                                        done: seq<Node>, order: seq<Node>, p: Progress)
    requires Accepted(w.rules, d, ancestry, depth) && (forall n | n in order :: n in d.nodes)
    requires UniqueIds(done + order) && Accounted(w, d, req, done, p)
    ensures
      var run := RunNodes(w, d, req, ancestry, depth, order, p);
      run.result.error.None? ==> run == Finish(run.progress) && Accounted(w, d, req, done + order, run.progress)
    decreases |order|
  {
    hide Accepted, StepNode;
    if order == [] {
      assert done + order == done;
    } else {
      var n := order[0];
      FirstIsNew(done, order);
      StepAccounted(w, d, req, ancestry, depth, n, p);
      var step := StepNode(w, d, req, ancestry, depth, n, p);
      if step.Next? {
        AccountedSnoc(w, d, req, done, n, p, step.progress);
        assert (done + [n]) + order[1..] == done + order;
        RunAccounted(w, d, req, ancestry, depth, done + [n], order[1..], step.progress);
      }
    }
  }

  /** An accepted definition's execution order holds each of its nodes once. */
  lemma OrderCoversDefinition(rules: Rules, d: Definition, ancestry: set<string>, depth: nat)
    requires Accepted(rules, d, ancestry, depth)
    ensures UniqueIds(ExecutionOrder(d)) && NodeIds(ExecutionOrder(d)) == NodeIds(d.nodes)
    ensures forall n :: n in ExecutionOrder(d) <==> n in d.nodes
  {
    NodesErrorNone(rules, Granted(d.capabilities), {}, d.nodes);
    EdgesOkWithin(rules, d.nodes, d.edges);
    var ids := LeastReadyOrder(NodeIds(d.nodes), d.edges, {});
    OrderCompleteIffAcyclic(NodeIds(d.nodes), d.edges);
    var order := ExecutionOrder(d);
    forall i, j | 0 <= i < j < |order| ensures order[i].id != order[j].id {
      assert ids[i] != ids[j];
    }
    forall n | n in d.nodes ensures n in order {
      assert n.id in Elements(ids);
      var k :| 0 <= k < |ids| && ids[k] == n.id;
    }
    forall id ensures id in NodeIds(order) <==> id in NodeIds(d.nodes) {
      if id in NodeIds(d.nodes) {
        var n :| n in d.nodes && n.id == id;
        assert n in order;
      }
    }
  }

  lemma NothingAccounted(w: World, d: Definition, req: Request)
    ensures Accounted(w, d, req, [], NOTHING_YET)
  {
  }

  /**
   * A run that returns without error accounts for every node as output, skipped or failed; outputs and
   * skipped nodes are apart; a node with both an output and a failure is exactly a partial one; every
   * fresh output had usable sources; and the state is completed exactly when nothing failed.
   */
  lemma EveryNodeAccounted(w: World, d: Definition, req: Request, ancestry: set<string>, depth: nat)
    requires Accepted(w.rules, d, ancestry, depth)
    ensures
      var run := Execute(w, d, req, ancestry, depth);
      run.result.error.None? ==>
        && Accounted(w, d, req, ExecutionOrder(d), run.progress)
        && NodeIds(ExecutionOrder(d)) == NodeIds(d.nodes)
        && run.result.outputs == run.progress.outputs && run.result.errors == run.progress.failures
        && (run.result.state == RunCompleted <==> run.result.errors == map[])
        && (run.result.state == RunCompletedWithErrors <==> run.result.errors != map[])
  {
    NothingAccounted(w, d, req);
    hide Accounted, Accepted, ExecutionOrder, RunNodes;
    OrderCoversDefinition(w.rules, d, ancestry, depth);
    var order := ExecutionOrder(d);
    assert NodeIds([]) == {};
    assert [] + order == order;
    RunAccounted(w, d, req, ancestry, depth, [], order, NOTHING_YET);
  }
}
