/**
 * What the routine language means, and what an accepted routine may refer to, independently of both evaluators
 * and of the order in which admission checks a definition. Models routine-coordinator.ts lines 26-60 and
 * routines.go lines 94-121 and 168-208.
 */
module RoutineMeaning {
  import opened OrderedStrings
  import opened JsonValues
  import opened JsonCanonical
  import opened RoutineLanguage
  import opened RoutineRun

  // ------------------------------------------------------------------- paths

  /** One key leads from a value to a part of it: a name to an object's field, a number to a list's item. */
  predicate LeadsTo(from: Json, key: Key, to: Json) {
    match key
    case Name(name) => from.JObject? && name in from.fields && to == from.fields[name]
    case Index(i) => from.JArray? && i < |from.items| && to == from.items[i]
  }

  /** The values met along a path, from the source to what it names. */
  ghost predicate Trail(values: seq<Json>, path: seq<Key>) {
    |values| == |path| + 1 && forall i: nat | i < |path| :: LeadsTo(values[i], path[i], values[i + 1])
  }

  ghost predicate PathLeads(from: Json, path: seq<Key>, to: Json) {
    exists values :: Trail(values, path) && values[0] == from && values[|path|] == to
  }

  lemma {:induction false} FollowLeads(item: Json, path: seq<Key>)
    ensures forall to :: Follow(item, path) == Some(to) <==> PathLeads(item, path, to)
  {
    if path == [] {
      assert Trail([item], path);
    } else {
      var child := Child(item, path[0]);
      if child.Some? {
        FollowLeads(child.value, path[1..]);
        forall to | PathLeads(child.value, path[1..], to) ensures PathLeads(item, path, to) {
          var rest :| Trail(rest, path[1..]) && rest[0] == child.value && rest[|path| - 1] == to;
          FirstKey(item, path, rest);
        }
        forall to | PathLeads(item, path, to) ensures PathLeads(child.value, path[1..], to) {
          var values :| Trail(values, path) && values[0] == item && values[|path|] == to;
          assert LeadsTo(values[0], path[0], values[1]);
          LaterKeys(path, values);
        }
      } else {
        forall values | Trail(values, path) ensures Child(values[0], path[0]).Some? { FirstStep(path, values); }
      }
    }
  }

  lemma FirstStep(path: seq<Key>, values: seq<Json>)
    requires path != [] && Trail(values, path)
    ensures Child(values[0], path[0]) == Some(values[1])
  {
    assert LeadsTo(values[0], path[0], values[1]);
  }

  lemma FirstKey(item: Json, path: seq<Key>, rest: seq<Json>)
    requires path != [] && Trail(rest, path[1..]) && LeadsTo(item, path[0], rest[0])
    ensures PathLeads(item, path, rest[|path| - 1])
  {
    var values := [item] + rest;
    forall i: nat | i < |path| ensures LeadsTo(values[i], path[i], values[i + 1]) {
      if i > 0 { assert LeadsTo(rest[i - 1], path[1..][i - 1], rest[i]); }
    }
    assert Trail(values, path);
  }

  lemma LaterKeys(path: seq<Key>, values: seq<Json>)
    requires path != [] && Trail(values, path)
    ensures PathLeads(values[1], path[1..], values[|path|])
  {
    var rest := values[1..];
    forall i: nat | i < |path| - 1 ensures LeadsTo(rest[i], path[1..][i], rest[i + 1]) {
      assert LeadsTo(values[i + 1], path[i + 1], values[i + 2]);
    }
    assert Trail(rest, path[1..]);
  }

  /** What a reference names: the end of its path from the trigger's data or from an earlier step's result. */
  ghost predicate Refers(ref: Reference, values: Values, to: Json) {
    match ref.source
    case Trigger => PathLeads(values.trigger, ref.path, to)
    case StepOutput(id) => id in values.steps && PathLeads(values.steps[id], ref.path, to)
  }

  lemma ResolveRefers(ref: Reference, values: Values)
    ensures forall to :: Resolve(ref, values) == Some(to) <==> Refers(ref, values, to)
  {
    var item := SourceOf(ref.source, values);
    if item.Some? { FollowLeads(item.value, ref.path); }
  }

  // ------------------------------------------------------------------ values

  /** What an expression stands for. */
  ghost predicate Means(e: Value, values: Values, to: Json) {
    match e
    case Literal(v) => to == v
    case Refer(ref) => Refers(ref, values, to)
    case ObjectOf(fields) =>
      to.JObject? && to.fields.Keys == fields.Keys && forall k | k in fields :: Means(fields[k], values, to.fields[k])
    case ArrayOf(items) =>
      to.JArray? && |to.items| == |items| && forall i | 0 <= i < |items| :: Means(items[i], values, to.items[i])
  }

  lemma {:induction false} ValueMeans(e: Value, values: Values)
    ensures forall to :: TsValue(e, values) == Ok(to) <==> Means(e, values, to)
  {
    match e
    case Literal(_) =>
    case Refer(ref) => ResolveRefers(ref, values);
    case ObjectOf(fields) =>
      forall k | k in fields ensures forall to ::
        TsValue(fields[k], values) == Ok(to) <==> Means(fields[k], values, to) {
        ValueMeans(fields[k], values);
      }
      ObjectMeans(e, values);
    case ArrayOf(items) =>
      forall i | 0 <= i < |items|
        ensures forall to :: TsValue(items[i], values) == Ok(to) <==> Means(items[i], values, to)
      {
        ValueMeans(items[i], values);
      }
      ArrayMeans(e, values);
  }

  lemma ObjectMeans(e: Value, values: Values)
    requires e.ObjectOf?
    requires forall k | k in e.fields :: forall to ::
      TsValue(e.fields[k], values) == Ok(to) <==> Means(e.fields[k], values, to)
    ensures forall to :: TsValue(e, values) == Ok(to) <==> Means(e, values, to)
  {
    var r := TsValue(e, values);
    if r.Ok? {
      forall k | k in e.fields ensures Means(e.fields[k], values, r.value.fields[k]) {
        assert TsValue(e.fields[k], values) == Ok(r.value.fields[k]);
      }
      assert r.value.fields.Keys == e.fields.Keys;
    }
    forall to | Means(e, values, to) ensures r == Ok(to) {
      forall k | k in e.fields ensures TsValue(e.fields[k], values) == Ok(to.fields[k]) {
        assert Means(e.fields[k], values, to.fields[k]);
      }
      assert r.Ok? && r.value.fields == to.fields;
    }
  }

  lemma ArrayMeans(e: Value, values: Values)
    requires e.ArrayOf?
    requires forall i | 0 <= i < |e.items| ::
      forall to :: TsValue(e.items[i], values) == Ok(to) <==> Means(e.items[i], values, to)
    ensures forall to :: TsValue(e, values) == Ok(to) <==> Means(e, values, to)
  {
    var r := TsValue(e, values);
    if r.Ok? {
      forall i | 0 <= i < |e.items| ensures Means(e.items[i], values, r.value.items[i]) {
        assert TsValue(e.items[i], values) == Ok(r.value.items[i]);
      }
    }
    forall to | Means(e, values, to) ensures r == Ok(to) {
      forall i | 0 <= i < |e.items| ensures TsValue(e.items[i], values) == Ok(to.items[i]) {
        assert Means(e.items[i], values, to.items[i]);
      }
      assert r.Ok? && r.value.items == to.items;
    }
  }

  // -------------------------------------------------------------- conditions

  /** A condition says yes or no; where it does neither, a reference it looks at is missing. */
  ghost predicate Says(c: Condition, values: Values, answer: bool)
    decreases c
  {
    match c
    case Equals(left, right) =>
      exists a, b :: Means(left, values, a) && Means(right, values, b) && (answer <==> TsEqual(a, b))
    case Exists(ref) => answer <==> exists to :: Refers(ref, values, to)
    case AllOf(children) =>
      if answer then forall i | 0 <= i < |children| :: Says(children[i], values, true)
      else exists i :: 0 <= i < |children| && Says(children[i], values, false) &&
                       forall j | 0 <= j < i :: Says(children[j], values, true)
    case AnyOf(children) =>
      if answer then
        exists i :: 0 <= i < |children| && Says(children[i], values, true) &&
                    forall j | 0 <= j < i :: Says(children[j], values, false)
      else forall i | 0 <= i < |children| :: Says(children[i], values, false)
    case Not(inner) => Says(inner, values, !answer)
  }

  ghost predicate Answered(c: Condition, values: Values) {
    forall answer :: TsCondition(c, values) == Ok(answer) <==> Says(c, values, answer)
  }

  lemma {:induction false} ConditionSays(c: Condition, values: Values)
    ensures Answered(c, values)
    decreases c, 0
  {
    match c
    case Equals(left, right) =>
      ValueMeans(left, values);
      ValueMeans(right, values);
      EqualsSays(c, values);
    case Exists(ref) => ResolveRefers(ref, values);
    case AllOf(children) =>
      forall i | 0 <= i < |children| ensures Answered(children[i], values) { ConditionSays(children[i], values); }
      AllSays(c, 0, values);
    case AnyOf(children) =>
      forall i | 0 <= i < |children| ensures Answered(children[i], values) { ConditionSays(children[i], values); }
      AnySays(c, 0, values);
    case Not(inner) => ConditionSays(inner, values);
  }

  lemma EqualsSays(c: Condition, values: Values)
    requires c.Equals?
    requires forall to :: TsValue(c.left, values) == Ok(to) <==> Means(c.left, values, to)
    requires forall to :: TsValue(c.right, values) == Ok(to) <==> Means(c.right, values, to)
    ensures Answered(c, values)
  {
    hide TsValue, Means, TsEqual;
  }

  ghost predicate AllFrom(c: Condition, i: nat, values: Values, answer: bool) requires c.AllOf? {
    if answer then forall k | i <= k < |c.conditions| :: Says(c.conditions[k], values, true)
    else exists k :: i <= k < |c.conditions| && Says(c.conditions[k], values, false) &&
                     forall j | i <= j < k :: Says(c.conditions[j], values, true)
  }

  lemma {:induction false} AllSays(c: Condition, i: nat, values: Values)
    requires c.AllOf? && i <= |c.conditions| && forall k | 0 <= k < |c.conditions| :: Answered(c.conditions[k], values)
    ensures forall answer :: TsJunction(c, i, values) == Ok(answer) <==> AllFrom(c, i, values, answer)
    decreases |c.conditions| - i
  {
    hide TsCondition, Says;
    if i < |c.conditions| {
      AllSays(c, i + 1, values);
      assert Answered(c.conditions[i], values);
    }
  }

  ghost predicate AnyFrom(c: Condition, i: nat, values: Values, answer: bool) requires c.AnyOf? {
    if answer then
      exists k :: i <= k < |c.conditions| && Says(c.conditions[k], values, true) &&
                  forall j | i <= j < k :: Says(c.conditions[j], values, false)
    else forall k | i <= k < |c.conditions| :: Says(c.conditions[k], values, false)
  }

  lemma {:induction false} AnySays(c: Condition, i: nat, values: Values)
    requires c.AnyOf? && i <= |c.conditions| && forall k | 0 <= k < |c.conditions| :: Answered(c.conditions[k], values)
    ensures forall answer :: TsJunction(c, i, values) == Ok(answer) <==> AnyFrom(c, i, values, answer)
    decreases |c.conditions| - i
  {
    hide TsCondition, Says;
    if i < |c.conditions| {
      AnySays(c, i + 1, values);
      assert Answered(c.conditions[i], values);
    }
  }

  // --------------------------------------------------------------- admission

  /** No object of the expression has more than a hundred fields. */
  ghost predicate Slim(e: Value) {
    match e
    case ObjectOf(fields) => |fields| <= 100 && forall k | k in fields :: Slim(fields[k])
    case ArrayOf(items) => forall i | 0 <= i < |items| :: Slim(items[i])
    case _ => true
  }

  ghost predicate SlimCondition(c: Condition) {
    match c
    case Equals(left, right) => Slim(left) && Slim(right)
    case Exists(_) => true
    case AllOf(children) => forall i | 0 <= i < |children| :: SlimCondition(children[i])
    case AnyOf(children) => forall i | 0 <= i < |children| :: SlimCondition(children[i])
    case Not(inner) => SlimCondition(inner)
  }

  /** The reference is to the trigger or to a step of these. */
  predicate Backward(ref: Reference, seen: set<string>) {
    match ref.source
    case Trigger => true
    case StepOutput(id) => id in seen
  }

  lemma {:induction false} NamesOnlyIff(e: Value, seen: set<string>)
    ensures NamesOnly(e, seen) <==> Slim(e) && forall ref | Occurs(ref, e) :: Backward(ref, seen)
  {
    match e
    case Literal(_) =>
    case Refer(ref) => assert Occurs(ref, e);
    case ObjectOf(fields) =>
      forall k | k in fields
        ensures NamesOnly(fields[k], seen) <==> Slim(fields[k]) && forall ref | Occurs(ref, fields[k]) ::
          Backward(ref, seen)
        ensures forall ref | Occurs(ref, fields[k]) :: Occurs(ref, e)
      {
        NamesOnlyIff(fields[k], seen);
      }
    case ArrayOf(items) =>
      forall i | 0 <= i < |items|
        ensures NamesOnly(items[i], seen) <==> Slim(items[i]) && forall ref | Occurs(ref, items[i]) ::
          Backward(ref, seen)
        ensures forall ref | Occurs(ref, items[i]) :: Occurs(ref, e)
      {
        NamesOnlyIff(items[i], seen);
      }
  }

  lemma {:induction false} ConditionNamesIff(c: Condition, seen: set<string>)
    ensures ConditionNamesOnly(c, seen) <==> SlimCondition(c) && forall ref | OccursIn(ref, c) :: Backward(ref, seen)
    decreases c, 1
  {
    match c
    case Equals(left, right) =>
      NamesOnlyIff(left, seen);
      NamesOnlyIff(right, seen);
    case Exists(ref) => assert OccursIn(ref, c);
    case AllOf(children) => ChildrenNames(c, seen);
    case AnyOf(children) => ChildrenNames(c, seen);
    case Not(inner) => ConditionNamesIff(inner, seen);
  }

  lemma {:induction false} ChildrenNames(c: Condition, seen: set<string>)
    requires c.AllOf? || c.AnyOf?
    ensures ConditionNamesOnly(c, seen) <==> SlimCondition(c) && forall ref | OccursIn(ref, c) :: Backward(ref, seen)
    decreases c, 0
  {
    forall i | 0 <= i < |c.conditions|
      ensures ConditionNamesOnly(c.conditions[i], seen) <==>
        SlimCondition(c.conditions[i]) && forall ref | OccursIn(ref, c.conditions[i]) :: Backward(ref, seen)
      ensures forall ref | OccursIn(ref, c.conditions[i]) :: OccursIn(ref, c)
    {
      ConditionNamesIff(c.conditions[i], seen);
    }
  }

  /** The reference is to the trigger or to a step before this one. */
  ghost predicate NamesEarlier(def: Definition, i: nat, ref: Reference) requires i <= |def.steps| {
    match ref.source
    case Trigger => true
    case StepOutput(id) => exists j :: 0 <= j < i && def.steps[j].id == id
  }

  ghost predicate RefersBack(def: Definition, i: nat) requires i < |def.steps| {
    && (forall ref | Occurs(ref, def.steps[i].input) :: NamesEarlier(def, i, ref))
    && (def.steps[i].when.Some? ==> forall ref | OccursIn(ref, def.steps[i].when.value) :: NamesEarlier(def, i, ref))
  }

  ghost predicate StepFine(def: Definition, i: nat, rules: Rules) requires i < |def.steps| {
    var step := def.steps[i];
    && (forall j | 0 <= j < i :: def.steps[j].id != step.id) && RefersBack(def, i)
    && Slim(step.input) && (step.when.Some? ==> SlimCondition(step.when.value)) &&
          (step.Agent? ==> rules.compiles(step))
  }

  /** The turns of the agent steps among the first ones. */
  function AgentTurns(steps: seq<Step>): nat {
    if steps == [] then 0
    else
      match steps[|steps| - 1]
      case Agent(_, _, _, maxTurns) => AgentTurns(steps[..|steps| - 1]) + maxTurns
      case _ => AgentTurns(steps[..|steps| - 1])
  }

  /** A schedule runs in a known zone, on distinct days and at distinct minutes of the day. */
  ghost predicate TriggerFine(t: Trigger, rules: Rules) {
    match t
    case Unscheduled => true
    case Schedule(zone, days, times) =>
      && zone !in {"", "Local"} && rules.zoneKnown(zone)
      && (forall i, j | 0 <= i < j < |days| :: days[i] != days[j])
      && forall i, j | 0 <= i < j < |times| ::
            times[i].hour * 60 + times[i].minute != times[j].hour * 60 + times[j].minute
  }

  lemma StepFineIff(def: Definition, i: nat, rules: Rules)
    requires i < |def.steps|
    ensures StepAccepted(def.steps, i, rules) <==> StepFine(def, i, rules)
  {
    hide NamesOnly, ConditionNamesOnly, Slim, SlimCondition, Occurs, OccursIn;
    var seen := RoutineRun.IdsBefore(def.steps, i);
    NamesOnlyIff(def.steps[i].input, seen);
    if def.steps[i].when.Some? { ConditionNamesIff(def.steps[i].when.value, seen); }
    forall ref ensures Backward(ref, seen) <==> NamesEarlier(def, i, ref) {}
  }

  lemma {:induction false} TurnsAre(steps: seq<Step>, i: nat)
    requires i <= |steps|
    ensures TotalTurns(steps, i) == AgentTurns(steps[..i])
  {
    if i > 0 {
      TurnsAre(steps, i - 1);
      assert steps[..i][..i - 1] == steps[..i - 1];
    }
  }

  /** Admission accepts exactly routines of this kind. */
  lemma AcceptedIff(def: Definition, rules: Rules)
    ensures Accepted(def, rules) <==>
      && (forall i | 0 <= i < |def.steps| :: StepFine(def, i, rules))
      && AgentTurns(def.steps) <= def.modelTurns && TriggerFine(def.trigger, rules)
  {
    hide StepAccepted, StepFine;
    forall i | 0 <= i < |def.steps| ensures StepAccepted(def.steps, i, rules) <==> StepFine(def, i, rules) {
      StepFineIff(def, i, rules);
    }
    TurnsAre(def.steps, |def.steps|);
    assert def.steps[..|def.steps|] == def.steps;
  }
}
