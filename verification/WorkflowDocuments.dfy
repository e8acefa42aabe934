/**
 * What nested runs report to their parent: the documents of call_workflow and for_each, entry by entry.
 * Models engine_execute_for_each.go lines 12-159 and engine_errors.go lines 208-224 independently of the
 * engine's own construction.
 */
module WorkflowDocuments {
  import opened OrderedStrings
  import opened JsonValues
  import opened WorkflowTypes
  import opened WorkflowGraph
  import opened WorkflowValidation
  import opened WorkflowEngine
  import opened WorkflowResumeNested

  /** The object lists each text under its key, and nothing else. */
  predicate ListsTexts(j: Json, texts: map<string, string>) {
    && j.JObject? && j.fields.Keys == texts.Keys
    && forall k | k in texts :: j.fields[k] == JString(texts[k])
  }

  // ---------------------------------------------------------------- one item

  /** The error text of an item: its run's error, or else that of its checkpoint. */
  function ErrorText(w: World, nodeId: string, i: nat, r: RunResult): string {
    match r.error
    case Some(e) => w.message(e)
    case None =>
      match w.itemCheckpoint(nodeId, i)
      case Some(e) => w.message(e)
      case None => ""
  }

  predicate ItemBad(w: World, nodeId: string, i: nat, r: RunResult) {
    ErrorText(w, nodeId, i, r) != "" || r.errors != map[]
  }

  /** An item's entry: its index and input, and its run's outputs, errors and error text where there are any. */
  predicate EntryOf(j: Json, w: World, nodeId: string, i: nat, item: Json, r: RunResult) {
    var text := ErrorText(w, nodeId, i, r);
    && j.JObject?
    && j.fields.Keys == {"index", "input"} + (if r.outputs != map[] then {"outputs"} else {})
         + (if r.errors != map[] then {"errors"} else {}) + (if text != "" then {"error"} else {})
    && j.fields["index"] == JNumber(Decimal(i)) && j.fields["input"] == item
    && (r.outputs != map[] ==> j.fields["outputs"] == JObject(r.outputs))
    && (r.errors != map[] ==> ListsTexts(j.fields["errors"], r.errors))
    && (text != "" ==> j.fields["error"] == JString(text))
  }

  /** The number in six digits, or as many as it takes. */
  predicate SixDigits(text: string, n: nat) {
    && |text| >= 6 && (forall i | 0 <= i < |text| :: '0' <= text[i] <= '9')
    && DecimalValue(text) == n && (|text| > 6 ==> text[0] != '0')
  }

  // -------------------------------------------------------------- all of them

  /** The run of an item is the child's, on the item, under its own prefix, from the same checkpoints. */
  ghost function ItemRun(w: World, req: Request, ancestry: set<string>, depth: nat, inv: Invocation, i: nat, item: Json)
    : RunResult
    requires ChildOf(w.rules, inv.node).Some?
    requires Accepted(w.rules, ChildOf(w.rules, inv.node).value, ChildAncestry(inv.node, ancestry), depth + 1)
  {
    Execute(w, ChildOf(w.rules, inv.node).value, ItemRequest(req, inv.nodeId, i, item),
            ChildAncestry(inv.node, ancestry), depth + 1).result
  }

  lemma ItemRequestIs(req: Request, nodeId: string, i: nat, item: Json) returns (digits: string)
    ensures SixDigits(digits, i)
    ensures ItemRequest(req, nodeId, i, item) == Request(Doc(item), nodeId + ".item_" + digits + ".", req.completed)
  {
    digits := Padded(i);
    DecimalIsNumeral(i);
    ZerosInFront(if |Decimal(i)| < 6 then 6 - |Decimal(i)| else 0, Decimal(i));
    if |digits| > 6 { assert |Decimal(i)| > 1; }
  }

  lemma {:induction false} ZerosInFront(zeros: nat, text: string)
    requires forall i | 0 <= i < |text| :: '0' <= text[i] <= '9'
    ensures
      var all := seq(zeros, _ => '0') + text;
      (forall i | 0 <= i < |all| :: '0' <= all[i] <= '9') && DecimalValue(all) == DecimalValue(text)
    decreases |text| + zeros
  {
    var all := seq(zeros, _ => '0') + text;
    if text != "" {
      ZerosInFront(zeros, text[..|text| - 1]);
      assert all[..|all| - 1] == seq(zeros, _ => '0') + text[..|text| - 1];
    } else if zeros > 0 {
      ZerosInFront(zeros - 1, "");
      assert all[..|all| - 1] == seq(zeros - 1, _ => '0') + "";
    } else {
      assert all == text;
    }
  }

  lemma ItemEntry(w: World, nodeId: string, i: nat, item: Json, r: RunResult)
    ensures EntryOf(ItemDocument(ItemOf(w, nodeId, i, item, r)), w, nodeId, i, item, r)
    ensures ItemFailed(ItemOf(w, nodeId, i, item, r)) <==> ItemBad(w, nodeId, i, r)
  {
  }

  function ErrorEntry(r: ItemResult): string {
    if r.error != "" then r.error else "completed_with_errors"
  }

  /** The errors listed by item: those of the items that failed, under their own indices. */
  predicate ListsErrors(errors: map<string, string>, rs: seq<ItemResult>) {
    && (forall i | 0 <= i < |rs| :: Decimal(i) in errors <==> ItemFailed(rs[i]))
    && (forall i | 0 <= i < |rs| && ItemFailed(rs[i]) :: errors[Decimal(i)] == ErrorEntry(rs[i]))
    && forall k | k in errors :: exists i :: 0 <= i < |rs| && k == Decimal(i)
  }

  lemma {:induction false} ErrorsListed(rs: seq<ItemResult>)
    ensures ListsErrors(ItemErrors(rs), rs)
  {
    hide Decimal, ItemFailed, ListsErrors;
    if rs != [] {
      var init, last := rs[..|rs| - 1], rs[|rs| - 1];
      ErrorsListed(init);
      assert rs == init + [last];
      OneMoreError(ItemErrors(init), init, last);
    } else {
      NoneListed();
    }
  }

  lemma NoneListed()
    ensures ListsErrors(map[], [])
  {
  }

  lemma OneMoreError(errors: map<string, string>, rs: seq<ItemResult>, r: ItemResult)
    requires ListsErrors(errors, rs)
    ensures ListsErrors(if ItemFailed(r) then errors[Decimal(|rs|) := ErrorEntry(r)] else errors, rs + [r])
  {
    hide Decimal, ItemFailed, ErrorEntry, ListsErrors;
    var more, n := rs + [r], |rs|;
    var all := if ItemFailed(r) then errors[Decimal(n) := ErrorEntry(r)] else errors;
    NotListedYet(errors, rs);
    forall i | 0 <= i < |more|
      ensures Decimal(i) in all <==> ItemFailed(more[i])
      ensures ItemFailed(more[i]) ==> all[Decimal(i)] == ErrorEntry(more[i])
    {
      if i < n {
        assert more[i] == rs[i];
        EntryStays(errors, rs, i);
      }
    }
    forall k | k in all ensures IsIndex(k, |more|) {
      if k in errors { KeyIsIndex(errors, rs, k); } else { assert k == Decimal(n); }
    }
    AllListed(all, more);
  }

  ghost predicate IsIndex(k: string, n: nat) {
    exists i :: 0 <= i < n && k == Decimal(i)
  }

  lemma KeyIsIndex(errors: map<string, string>, rs: seq<ItemResult>, k: string)
    requires ListsErrors(errors, rs) && k in errors
    ensures IsIndex(k, |rs|) && IsIndex(k, |rs| + 1)
  {
    hide Decimal, ItemFailed, ErrorEntry;
    var i :| 0 <= i < |rs| && k == Decimal(i);
    assert 0 <= i < |rs| + 1;
  }

  lemma EntryStays(errors: map<string, string>, rs: seq<ItemResult>, i: nat)
    requires ListsErrors(errors, rs) && i < |rs|
    ensures Decimal(i) != Decimal(|rs|) && (Decimal(i) in errors <==> ItemFailed(rs[i]))
    ensures ItemFailed(rs[i]) ==> errors[Decimal(i)] == ErrorEntry(rs[i])
  {
    hide Decimal, ItemFailed, ErrorEntry;
    if Decimal(i) == Decimal(|rs|) { DecimalInjective(i, |rs|); }
  }

  lemma AllListed(errors: map<string, string>, rs: seq<ItemResult>)
    requires forall i | 0 <= i < |rs| :: Decimal(i) in errors <==> ItemFailed(rs[i])
    requires forall i | 0 <= i < |rs| && ItemFailed(rs[i]) :: errors[Decimal(i)] == ErrorEntry(rs[i])
    requires forall k | k in errors :: IsIndex(k, |rs|)
    ensures ListsErrors(errors, rs)
  {
    hide Decimal, ItemFailed, ErrorEntry;
    forall k | k in errors ensures exists i :: 0 <= i < |rs| && k == Decimal(i) { assert IsIndex(k, |rs|); }
  }

  lemma NotListedYet(errors: map<string, string>, rs: seq<ItemResult>)
    requires ListsErrors(errors, rs)
    ensures Decimal(|rs|) !in errors
  {
    hide Decimal, ItemFailed, ErrorEntry;
    if Decimal(|rs|) in errors {
      var i :| 0 <= i < |rs| && Decimal(|rs|) == Decimal(i);
      DecimalInjective(i, |rs|);
    }
  }

  /** Every item has its entry. */
  predicate ReportsEntries(j: Json, w: World, nodeId: string, items: seq<Json>, runs: seq<RunResult>)
    requires |items| == |runs|
  {
    && j.JArray? && |j.items| == |items|
    && forall i | 0 <= i < |items| :: EntryOf(j.items[i], w, nodeId, i, items[i], runs[i])
  }

  /** Every item that went wrong, and no other, has its error text under its index. */
  ghost predicate ReportsErrors(j: Json, w: World, nodeId: string, runs: seq<RunResult>) {
    && j.JObject?
    && (forall k | k in j.fields :: exists i :: 0 <= i < |runs| && k == Decimal(i))
    && (forall i | 0 <= i < |runs| :: Decimal(i) in j.fields <==> ItemBad(w, nodeId, i, runs[i]))
    && forall i | 0 <= i < |runs| && ItemBad(w, nodeId, i, runs[i]) ::
         var text := ErrorText(w, nodeId, i, runs[i]);
         j.fields[Decimal(i)] == JString(if text != "" then text else "completed_with_errors")
  }

  predicate AnyBad(w: World, nodeId: string, runs: seq<RunResult>) {
    exists i :: 0 <= i < |runs| && ItemBad(w, nodeId, i, runs[i])
  }

  /** The document of a for_each over these runs of its items. */
  ghost predicate ReportsItems(j: Json, w: World, nodeId: string, items: seq<Json>, runs: seq<RunResult>)
    requires |items| == |runs|
  {
    && j.JObject? && j.fields.Keys == {"items", "errors", "partial"}
    && ReportsEntries(j.fields["items"], w, nodeId, items, runs)
    && ReportsErrors(j.fields["errors"], w, nodeId, runs)
    && j.fields["partial"] == JBool(AnyBad(w, nodeId, runs))
  }

  ghost predicate ResultsOf(rs: seq<ItemResult>, w: World, nodeId: string, items: seq<Json>, runs: seq<RunResult>) {
    |rs| == |items| == |runs| && forall i | 0 <= i < |rs| :: rs[i] == ItemOf(w, nodeId, i, items[i], runs[i])
  }

  lemma AnyFailedIff(rs: seq<ItemResult>, w: World, nodeId: string, items: seq<Json>, runs: seq<RunResult>)
    requires ResultsOf(rs, w, nodeId, items, runs)
    ensures AnyFailed(rs) <==> AnyBad(w, nodeId, runs)
  {
    hide ItemOf, ItemFailed, ItemBad;
    forall i | 0 <= i < |rs| ensures ItemFailed(rs[i]) <==> ItemBad(w, nodeId, i, runs[i]) {
      ItemEntry(w, nodeId, i, items[i], runs[i]);
    }
    if i :| 0 <= i < |runs| && ItemBad(w, nodeId, i, runs[i]) { assert ItemFailed(rs[i]); }
  }

  lemma EntriesReported(rs: seq<ItemResult>, w: World, nodeId: string, items: seq<Json>, runs: seq<RunResult>)
    requires ResultsOf(rs, w, nodeId, items, runs)
    ensures
      ReportsEntries(JArray(seq(|rs|, i requires 0 <= i < |rs| => ItemDocument(rs[i]))), w, nodeId, items, runs)
  {
    hide ItemDocument, ItemOf, EntryOf;
    forall i | 0 <= i < |rs| ensures EntryOf(ItemDocument(rs[i]), w, nodeId, i, items[i], runs[i]) {
      ItemEntry(w, nodeId, i, items[i], runs[i]);
    }
  }

  lemma ErrorsReported(rs: seq<ItemResult>, w: World, nodeId: string, items: seq<Json>, runs: seq<RunResult>)
    requires ResultsOf(rs, w, nodeId, items, runs)
    ensures ReportsErrors(Texts(ItemErrors(rs)), w, nodeId, runs)
  {
    hide ItemErrors, ItemOf, ItemFailed, ItemBad, Decimal, ErrorText;
    ErrorsListed(rs);
    var errors, j := ItemErrors(rs), Texts(ItemErrors(rs));
    assert j.fields.Keys == errors.Keys;
    forall i | 0 <= i < |runs|
      ensures Decimal(i) in j.fields <==> ItemBad(w, nodeId, i, runs[i])
      ensures ItemBad(w, nodeId, i, runs[i]) ==>
        var text := ErrorText(w, nodeId, i, runs[i]);
        j.fields[Decimal(i)] == JString(if text != "" then text else "completed_with_errors")
    {
      ItemEntry(w, nodeId, i, items[i], runs[i]);
      ItemTextIs(w, nodeId, i, items[i], runs[i]);
      assert ItemFailed(rs[i]) ==> errors[Decimal(i)] == ErrorEntry(rs[i]);
    }
  }

  lemma ItemTextIs(w: World, nodeId: string, i: nat, item: Json, r: RunResult)
    ensures ItemOf(w, nodeId, i, item, r).error == ErrorText(w, nodeId, i, r)
  {
  }

  lemma DocumentReports(rs: seq<ItemResult>, w: World, nodeId: string, items: seq<Json>, runs: seq<RunResult>)
    requires ResultsOf(rs, w, nodeId, items, runs)
    ensures ReportsItems(ItemsDocument(rs), w, nodeId, items, runs)
  {
    hide ItemDocument, ItemErrors, AnyFailed, AnyBad, ReportsEntries, ReportsErrors, ResultsOf;
    EntriesReported(rs, w, nodeId, items, runs);
    ErrorsReported(rs, w, nodeId, items, runs);
    AnyFailedIff(rs, w, nodeId, items, runs);
  }

  // ---------------------------------------------------------------- the items

  const KEYS := ["items", "events", "value"]

  /** The array at the end of a path through the usual keys. */
  function Along(j: Json, path: seq<nat>): Option<seq<Json>> {
    if path == [] then if j.JArray? then Some(j.items) else None
    else if path[0] < 3 && j.JObject? && KEYS[path[0]] in j.fields then Along(j.fields[KEYS[path[0]]], path[1..])
    else None
  }

  /** One path is tried before another: at their first difference it takes the earlier key. */
  predicate Before(p: seq<nat>, q: seq<nat>) {
    p != [] && q != [] && (p[0] < q[0] || (p[0] == q[0] && Before(p[1..], q[1..])))
  }

  ghost predicate FirstAlong(j: Json, path: seq<nat>, items: seq<Json>) {
    Along(j, path) == Some(items) && forall q | Before(q, path) :: Along(j, q).None?
  }

  /** The first path is the one that leads to these items, or there is none. */
  ghost predicate Finds(j: Json, found: Option<seq<Json>>) {
    match found
    case Some(items) => exists path :: FirstAlong(j, path, items)
    case None => forall path :: Along(j, path).None?
  }

  /** The items found are those at the end of the first path that leads to an array; without one there are none. */
  lemma {:induction false} FoundIsFirst(j: Json)
    ensures Finds(j, FindItems(j))
    decreases j
  {
    match j
    case JArray(items) => assert FirstAlong(j, [], items);
    case JObject(fields) =>
      forall k: nat | k < 3 && KEYS[k] in fields ensures Finds(fields[KEYS[k]], FindItems(fields[KEYS[k]])) {
        FoundIsFirst(fields[KEYS[k]]);
      }
      FirstKey(j, 0);
      ThreeKeys(j);
      if FindItems(j).Some? {
        var items := FindItems(j).value;
        var path :| FirstFrom(j, 0, path, items);
        assert FirstAlong(j, path, items);
      }
    case _ =>
  }

  /** What is found under the keys from one on. */
  function FindFrom(j: Json, k: nat): Option<seq<Json>> requires j.JObject? && k <= 3 decreases 3 - k {
    if k == 3 then None
    else
      var found := if KEYS[k] in j.fields then FindItems(j.fields[KEYS[k]]) else None;
      if found.Some? then found else FindFrom(j, k + 1)
  }

  ghost predicate FirstFrom(j: Json, k: nat, path: seq<nat>, items: seq<Json>) {
    && path != [] && path[0] >= k && Along(j, path) == Some(items)
    && forall q | Before(q, path) && q[0] >= k :: Along(j, q).None?
  }

  ghost predicate FindsFrom(j: Json, k: nat, found: Option<seq<Json>>) {
    match found
    case Some(items) => exists path :: FirstFrom(j, k, path, items)
    case None => forall path: seq<nat> | path != [] && path[0] >= k :: Along(j, path).None?
  }

  lemma {:induction false} FirstKey(j: Json, k: nat)
    requires j.JObject? && k <= 3
    requires forall i: nat | k <= i < 3 && KEYS[i] in j.fields :: Finds(j.fields[KEYS[i]], FindItems(j.fields[KEYS[i]]))
    ensures FindsFrom(j, k, FindFrom(j, k))
    decreases 3 - k
  {
    if k < 3 {
      FirstKey(j, k + 1);
      var found := if KEYS[k] in j.fields then FindItems(j.fields[KEYS[k]]) else None;
      if found.Some? {
        var child := j.fields[KEYS[k]];
        var rest :| FirstAlong(child, rest, found.value);
        var path := [k] + rest;
        assert path[1..] == rest;
        forall q | Before(q, path) && q[0] >= k ensures Along(j, q).None? {
          assert q[0] == k && Before(q[1..], rest);
        }
        assert Along(j, path) == Along(child, rest);
        assert FirstFrom(j, k, path, found.value);
        assert FindsFrom(j, k, found);
      } else {
        forall path: seq<nat> | path != [] && path[0] == k ensures Along(j, path).None? {}
        if FindFrom(j, k).Some? {
          var items := FindFrom(j, k).value;
          var path :| FirstFrom(j, k + 1, path, items);
          forall q | Before(q, path) && q[0] >= k ensures Along(j, q).None? {
            assert q[0] == k || q[0] >= k + 1;
          }
          assert FirstFrom(j, k, path, items);
        }
      }
    }
  }

  lemma ThreeKeys(j: Json)
    requires j.JObject?
    ensures FindFrom(j, 0) == FindItems(j)
  {
    assert KEYS[0] == "items" && KEYS[1] == "events" && KEYS[2] == "value";
    assert FindFrom(j, 3).None?;
    assert FindFrom(j, 2) == if "value" in j.fields then FindItems(j.fields["value"]) else None;
    assert FindFrom(j, 1) == if "events" in j.fields && FindItems(j.fields["events"]).Some?
      then FindItems(j.fields["events"]) else FindFrom(j, 2);
  }

  /** A configuration a for_each may run with: where nothing is set, at most 1000 items, four at a time, collected. */
  predicate Configured(c: Config, count: nat) {
    && c.Config?
    && count <= (if c.maximumItems == 0 then 1000 else c.maximumItems) && 0 <= c.maximumItems <= 10000
    && (c.sequential || 0 <= c.concurrency <= 32)
    && c.errorMode in {"", "collect", "continue", "fail_fast"}
  }

  /** A for_each starts exactly with a child, an array to be found and a configuration that allows its length. */
  lemma StartsIff(w: World, n: Node, input: Raw)
    requires n.kind == "for_each"
    ensures
      var prepared := PrepareItems(w, n, input);
      var child := ChildOf(w.rules, n).Some? && n.config.Config?;
      var found := if input.Doc? then FindItems(input.value) else None;
      && (prepared.Items? <==> child && found.Some? && Configured(n.config, |found.value|))
      && (prepared.Items? ==>
            && prepared.items == found.value && (prepared.failFast <==> n.config.errorMode == "fail_fast")
            && 1 <= ItemLimit(n) <= 32
            && ItemLimit(n) == if n.config.sequential then 1 else if n.config.concurrency == 0 then 4
                  else n.config.concurrency)
      && (prepared.NoItems? ==>
            prepared.error == if child && found.None? then OutputInvalid else Rejected(InvalidDefinition))
  {
  }

  // ------------------------------------------------------------- main results

  /**
   * What a for_each reports: an entry per item from that item's own run, the errors under the indices of the
   * items that went wrong, and partial exactly when one did, which is an error when it fails fast.
   */
  lemma ForEachReports(w: World, d: Definition, req: Request, ancestry: set<string>, depth: nat, inv: Invocation,
                       partial: bool, effects: nat)
    requires Runnable(w, d, ancestry, depth, inv.node) && inv.node.kind == "for_each"
    requires PrepareItems(w, inv.node, inv.input).Items?
    ensures ChildOf(w.rules, inv.node).Some?
    ensures Accepted(w.rules, ChildOf(w.rules, inv.node).value, ChildAncestry(inv.node, ancestry), depth + 1)
    ensures
      var Items(items, failFast) := PrepareItems(w, inv.node, inv.input);
      var runs := seq(|items|, i requires 0 <= i < |items| => ItemRun(w, req, ancestry, depth, inv, i, items[i]));
      var reply := Handle(w, d, req, ancestry, depth, inv, partial, effects);
      && reply.output.Doc? && ReportsItems(reply.output.value, w, inv.nodeId, items, runs)
      && reply.partial == AnyBad(w, inv.nodeId, runs) && reply.effects == effects
      && reply.error == if failFast && AnyBad(w, inv.nodeId, runs) then Some(ForEachFailed) else None
  {
    hide Accepted, Execute, ItemsDocument, AnyFailed, AnyBad, ReportsItems;
    RunnableFacts(w, d, ancestry, depth, inv.node);
    var items := PrepareItems(w, inv.node, inv.input).items;
    var runs := seq(|items|, i requires 0 <= i < |items| => ItemRun(w, req, ancestry, depth, inv, i, items[i]));
    var rs := ItemResults(w, d, req, ancestry, depth, inv, items);
    forall i | 0 <= i < |items| ensures rs[i] == ItemOf(w, inv.nodeId, i, items[i], runs[i]) {
      ItemResultAt(w, d, req, ancestry, depth, inv, items, i);
    }
    DocumentReports(rs, w, inv.nodeId, items, runs);
    AnyFailedIff(rs, w, inv.nodeId, items, runs);
  }

  /** How a run's state is spelled. */
  predicate Spells(text: string, state: RunState) {
    && (state == RunCompleted <==> text == "completed")
    && (state == RunCompletedWithErrors <==> text == "completed_with_errors")
    && (state == RunFailed <==> text == "failed") && (state == RunCanceled <==> text == "canceled")
    && (state == RunAwaitingApproval <==> text == "awaiting_approval")
  }

  /** What a nested workflow reports: its run's error, or its state, outputs and errors. */
  lemma CallReports(w: World, d: Definition, req: Request, ancestry: set<string>, depth: nat, inv: Invocation,
                    partial: bool, effects: nat)
    requires Runnable(w, d, ancestry, depth, inv.node) && inv.node.kind == "call_workflow"
    ensures ChildOf(w.rules, inv.node).Some?
    ensures Accepted(w.rules, ChildOf(w.rules, inv.node).value, ChildAncestry(inv.node, ancestry), depth + 1)
    ensures
      var r := Execute(w, ChildOf(w.rules, inv.node).value, Request(inv.input, inv.nodeId + ".", req.completed),
                       ChildAncestry(inv.node, ancestry), depth + 1).result;
      var reply := Handle(w, d, req, ancestry, depth, inv, partial, effects);
      && reply.error == r.error && reply.partial == partial && reply.effects == effects
      && (r.error.Some? ==> reply.output == Absent)
      && (r.error.None? ==>
            && reply.output.Doc? && reply.output.value.JObject?
            && reply.output.value.fields.Keys == {"state", "outputs", "errors"}
            && reply.output.value.fields["state"].JString? && Spells(reply.output.value.fields["state"].text, r.state)
            && reply.output.value.fields["outputs"] == JObject(r.outputs)
            && ListsTexts(reply.output.value.fields["errors"], r.errors))
  {
    hide Accepted, Execute;
    RunnableFacts(w, d, ancestry, depth, inv.node);
    ChildAccepted(w.rules, d, inv.node, ancestry, depth);
  }
}
