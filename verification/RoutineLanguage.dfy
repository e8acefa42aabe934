/**
 * The routine expression and condition language in its typed form, as the coordinator evaluates it
 * (routine-coordinator.ts lines 26-60).
 */
module RoutineLanguage {
  import opened OrderedStrings
  import opened JsonValues
  import opened JsonCanonical

  datatype Source = Trigger | StepOutput(stepId: string)

  datatype Key = Name(name: string) | Index(index: nat)

  datatype Reference = Reference(source: Source, path: seq<Key>)

  datatype Value =
    | Literal(value: Json)
    | Refer(reference: Reference)
    | ObjectOf(fields: map<string, Value>)
    | ArrayOf(items: seq<Value>)

  datatype Condition =
    | Equals(left: Value, right: Value)
    | Exists(reference: Reference)
    | AllOf(conditions: seq<Condition>)
    | AnyOf(conditions: seq<Condition>)
    | Not(condition: Condition)

  /** What evaluation sees: the trigger's data and the confirmed results of earlier steps. */
  datatype Values = Values(trigger: Json, steps: map<string, Json>)

  /** Missing is a reference that does not resolve, Invalid a malformed or too deep expression. */
  datatype Result<+T> = Ok(value: T) | Missing | Invalid

  // -------------------------------------------------- the coordinator's reading

  function Child(item: Json, key: Key): Option<Json> {
    match (item, key)
    case (JArray(items), Index(i)) => if i < |items| then Some(items[i]) else None
    case (JObject(fields), Name(name)) => if name in fields then Some(fields[name]) else None
    case _ => None
  }

  function Follow(item: Json, path: seq<Key>): Option<Json> {
    if path == [] then Some(item)
    else
      var child := Child(item, path[0]);
      if child.None? then None else Follow(child.value, path[1..])
  }

  function SourceOf(source: Source, values: Values): Option<Json> {
    match source
    case Trigger => Some(values.trigger)
    case StepOutput(id) => if id in values.steps then Some(values.steps[id]) else None
  }

  function Resolve(ref: Reference, values: Values): Option<Json> {
    var item := SourceOf(ref.source, values);
    if item.None? then None else Follow(item.value, ref.path)
  }

  /** Walks the path one key at a time, stopping at the first that leads nowhere. */
  method Lookup(ref: Reference, values: Values) returns (item: Option<Json>)
    ensures item == Resolve(ref, values)
  {
    item := SourceOf(ref.source, values);
    for i := 0 to |ref.path|
      invariant item.None? ==> Resolve(ref, values).None?
      invariant item.Some? ==> Resolve(ref, values) == Follow(item.value, ref.path[i..])
    {
      if item.None? { return None; }
      assert ref.path[i..][0] == ref.path[i] && ref.path[i..][1..] == ref.path[i + 1..];
      item := Child(item.value, ref.path[i]);
    }
  }

  function TsValue(e: Value, values: Values): (r: Result<Json>)
    ensures !r.Invalid?
  {
    match e
    case Literal(v) => Ok(v)
    case Refer(ref) =>
      var item := Resolve(ref, values);
      if item.None? then Missing else Ok(item.value)
    case ObjectOf(fields) =>
      if forall k | k in fields :: TsValue(fields[k], values).Ok? then
        Ok(JObject(map k | k in fields :: TsValue(fields[k], values).value))
      else Missing
    case ArrayOf(items) =>
      if forall i | 0 <= i < |items| :: TsValue(items[i], values).Ok? then
        Ok(JArray(seq(|items|, i requires 0 <= i < |items| => TsValue(items[i], values).value)))
      else Missing
  }

  function TsCondition(c: Condition, values: Values): (r: Result<bool>)
    ensures !r.Invalid?
    decreases c, 1, 0
  {
    match c
    case Equals(left, right) =>
      var a := TsValue(left, values);
      if !a.Ok? then Missing
      else
        var b := TsValue(right, values);
        if !b.Ok? then Missing else Ok(TsEqual(a.value, b.value))
    case Exists(ref) => Ok(Resolve(ref, values).Some?)
    case AllOf(_) => TsJunction(c, 0, values)
    case AnyOf(_) => TsJunction(c, 0, values)
    case Not(inner) =>
      var r := TsCondition(inner, values);
      if r.Ok? then Ok(!r.value) else r
  }

  /** every and some: left to right, stopping at the first child that settles it. */
  function TsJunction(c: Condition, i: nat, values: Values): (r: Result<bool>)
    requires (c.AllOf? || c.AnyOf?) && i <= |c.conditions|
    ensures !r.Invalid?
    decreases c, 0, |c.conditions| - i
  {
    if i == |c.conditions| then Ok(c.AllOf?)
    else
      var r := TsCondition(c.conditions[i], values);
      if !r.Ok? then r
      else if r.value != c.AllOf? then r
      else TsJunction(c, i + 1, values)
  }

  // ------------------------------------------------------ what a routine may refer to

  const MAX_FIELDS := 100

  ghost predicate ReferenceNames(ref: Reference, seen: set<string>) {
    ref.source.StepOutput? ==> ref.source.stepId in seen
  }

  ghost predicate NamesOnly(e: Value, seen: set<string>) {
    match e
    case Literal(_) => true
    case Refer(ref) => ReferenceNames(ref, seen)
    case ObjectOf(fields) => |fields| <= MAX_FIELDS && forall k | k in fields :: NamesOnly(fields[k], seen)
    case ArrayOf(items) => forall i | 0 <= i < |items| :: NamesOnly(items[i], seen)
  }

  ghost predicate ConditionNamesOnly(c: Condition, seen: set<string>) {
    match c
    case Equals(left, right) => NamesOnly(left, seen) && NamesOnly(right, seen)
    case Exists(ref) => ReferenceNames(ref, seen)
    case AllOf(children) => forall i | 0 <= i < |children| :: ConditionNamesOnly(children[i], seen)
    case AnyOf(children) => forall i | 0 <= i < |children| :: ConditionNamesOnly(children[i], seen)
    case Not(inner) => ConditionNamesOnly(inner, seen)
  }
}
