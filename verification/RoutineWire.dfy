/**
 * The routine language in its wire form, as the server evaluates it (routine_values.go lines 12-173), and the
 * server's check that references name earlier steps (routines.go lines 129-167), against the typed form.
 */
module RoutineWire {
  import opened OrderedStrings
  import opened JsonValues
  import opened JsonCanonical
  import opened JsonSizes
  import opened RoutineLanguage

  // ------------------------------------------------------------------ wire form

  const KIND := "kind"

  function Tagged(kind: string): map<string, Json> {
    map[KIND := JString(kind)]
  }

  function EncodeKey(key: Key): Json {
    match key
    case Name(name) => JString(name)
    case Index(i) => JNumber(Decimal(i))
  }

  function EncodePath(path: seq<Key>): (r: seq<Json>)
    ensures |r| == |path| && forall i | 0 <= i < |r| :: r[i] == EncodeKey(path[i])
  {
    seq(|path|, i requires 0 <= i < |path| => EncodeKey(path[i]))
  }

  function EncodeSource(source: Source): Json {
    match source
    case Trigger => JObject(Tagged("trigger"))
    case StepOutput(id) => JObject(Tagged("step")["stepId" := JString(id)])
  }

  function EncodeReference(ref: Reference): Json {
    JObject(Tagged("reference")["source" := EncodeSource(ref.source)]["path" := JArray(EncodePath(ref.path))])
  }

  function Encode(e: Value): (j: Json)
    ensures j.JObject?
  {
    match e
    case Literal(v) => JObject(Tagged("literal")["value" := v])
    case Refer(ref) => EncodeReference(ref)
    case ObjectOf(fields) => JObject(Tagged("object")["fields" := JObject(map k | k in fields :: Encode(fields[k]))])
    case ArrayOf(items) =>
      JObject(Tagged("array")["items" := JArray(seq(|items|, i requires 0 <= i < |items| => Encode(items[i])))])
  }

  function EncodeCondition(c: Condition): (j: Json)
    ensures j.JObject?
    decreases c
  {
    match c
    case Equals(left, right) => JObject(Tagged("equals")["left" := Encode(left)]["right" := Encode(right)])
    case Exists(ref) => JObject(Tagged("exists")["reference" := EncodeReference(ref)])
    case AllOf(children) =>
      JObject(Tagged("all")["conditions" := JArray(
        seq(|children|, i requires 0 <= i < |children| => EncodeCondition(children[i])))])
    case AnyOf(children) =>
      JObject(Tagged("any")["conditions" := JArray(
        seq(|children|, i requires 0 <= i < |children| => EncodeCondition(children[i])))])
    case Not(inner) => JObject(Tagged("not")["condition" := EncodeCondition(inner)])
  }

  // -------------------------------------------------------- the server's reading

  function Field(j: Json, key: string): Option<Json> {
    if j.JObject? && key in j.fields then Some(j.fields[key]) else None
  }

  predicate HasKind(j: Json, kind: string) {
    Field(j, KIND) == Some(JString(kind))
  }

  /** The whole number a path's numeral stands for, if it is one and not negative. */
  function IndexOf(text: string): Option<nat> {
    if text == "-0" then Some(0)
    else if text == "" || exists i | 0 <= i < |text| :: !('0' <= text[i] <= '9') then None
    else Some(DecimalValue(text))
  }

  function GoFollow(item: Json, path: seq<Json>): Result<Json> {
    if path == [] then Ok(item)
    else
      match path[0]
      case JString(name) =>
        if item.JObject? && name in item.fields then GoFollow(item.fields[name], path[1..]) else Missing
      case JNumber(text) =>
        var i := IndexOf(text);
        if item.JArray? && i.Some? && i.value < |item.items| then GoFollow(item.items[i.value], path[1..]) else Missing
      case _ => Invalid
  }

  /** Walks the path in place; a key that is neither a name nor a number is malformed. */
  method WalkPath(start: Json, path: seq<Json>) returns (r: Result<Json>)
    ensures r == GoFollow(start, path)
  {
    var item := start;
    for i := 0 to |path|
      invariant GoFollow(start, path) == GoFollow(item, path[i..])
    {
      assert path[i..][0] == path[i] && path[i..][1..] == path[i + 1..];
      match path[i]
      case JString(name) =>
        if !item.JObject? || name !in item.fields { return Missing; }
        item := item.fields[name];
      case JNumber(text) =>
        var index := IndexOf(text);
        if !item.JArray? || index.None? || index.value >= |item.items| { return Missing; }
        item := item.items[index.value];
      case _ => return Invalid;
    }
    return Ok(item);
  }

  function GoReference(e: Json, values: Values): Result<Json> {
    var source := Field(e, "source");
    if source.None? || !source.value.JObject? then Invalid
    else
      var id := Field(source.value, "stepId");
      var name := if id.Some? && id.value.JString? then id.value.text else "";
      if HasKind(source.value, "step") && name !in values.steps then Missing
      else if !HasKind(source.value, "step") && !HasKind(source.value, "trigger") then Invalid
      else
        var path := Field(e, "path");
        if path.None? || !path.value.JArray? then Invalid
        else GoFollow(if HasKind(source.value, "step") then values.steps[name] else values.trigger, path.value.items)
  }

  const MAX_DEPTH := 32

  /** Fields are visited in no particular order, so any failing field may be the one reported. */
  ghost function GoValue(e: Json, values: Values, depth: nat): Result<Json>
    decreases e
  {
    if depth > MAX_DEPTH then Invalid
    else if HasKind(e, "literal") then
      var value := Field(e, "value");
      if value.None? then Invalid else Ok(value.value)
    else if HasKind(e, "reference") then GoReference(e, values)
    else if HasKind(e, "object") then
      if "fields" !in e.fields || !e.fields["fields"].JObject? then Invalid
      else
        var fields := e.fields["fields"].fields;
        if forall k | k in fields :: fields[k].JObject? && GoValue(fields[k], values, depth + 1).Ok? then
          Ok(JObject(map k | k in fields :: GoValue(fields[k], values, depth + 1).value))
        else
          var k :| k in fields && !(fields[k].JObject? && GoValue(fields[k], values, depth + 1).Ok?);
          if fields[k].JObject? then GoValue(fields[k], values, depth + 1) else Invalid
    else if HasKind(e, "array") then
      if "items" !in e.fields || !e.fields["items"].JArray? then Invalid
      else GoItems(e, e.fields["items"].items, 0, values, depth, [])
    else Invalid
  }

  ghost function GoItems(e: Json, items: seq<Json>, i: nat, values: Values, depth: nat, done: seq<Json>): Result<Json>
    requires i <= |items| && forall k | 0 <= k < |items| :: items[k] < e
    decreases e, |items| - i
  {
    if i == |items| then Ok(JArray(done))
    else if !items[i].JObject? then Invalid
    else
      var r := GoValue(items[i], values, depth + 1);
      if !r.Ok? then r else GoItems(e, items, i + 1, values, depth, done + [r.value])
  }

  const MAX_RESULT := 0x10_0000
  const MAX_TEXT := 0x20_0000
  const MAX_NESTING := 40

  /** Decode reads the value's text. */
  predicate Decodable(j: Json) {
    Bytes(j) <= MAX_TEXT && Nested(j, 0, MAX_NESTING)
  }

  /** The expression must decode, and what it gives must not print too long. */
  ghost function GoResolveValue(raw: Option<Json>, values: Values): Result<Json> {
    if raw.None? || !Decodable(raw.value) || !raw.value.JObject? then Invalid
    else
      var r := GoValue(raw.value, values, 0);
      if r.Ok? && Bytes(r.value) > MAX_RESULT then Invalid else r
  }

  /** An absent condition holds. */
  ghost function GoCondition(raw: Option<Json>, values: Values): Result<bool> {
    if raw.None? then Ok(true) else GoConditionAt(raw.value, values)
  }

  ghost function GoConditionAt(c: Json, values: Values): Result<bool>
    decreases c, 1
  {
    if !Decodable(c) then Invalid
    else if HasKind(c, "equals") then
      var a := GoResolveValue(Field(c, "left"), values);
      if a.Missing? then Missing else if a.Invalid? then Invalid
      else
        var b := GoResolveValue(Field(c, "right"), values);
        if b.Missing? then Missing else if b.Invalid? then Invalid else Ok(GoEqual(a.value, b.value))
    else if HasKind(c, "exists") then
      var r := GoResolveValue(Field(c, "reference"), values);
      if r.Missing? then Ok(false) else if r.Invalid? then Invalid else Ok(true)
    else if HasKind(c, "not") then
      var r := if "condition" in c.fields then GoConditionAt(c.fields["condition"], values) else Ok(true);
      if r.Ok? then Ok(!r.value) else r
    else if HasKind(c, "all") || HasKind(c, "any") then
      if "conditions" !in c.fields then Invalid
      else if c.fields["conditions"].JNull? then Ok(HasKind(c, "all"))
      else if !c.fields["conditions"].JArray? then Invalid
      else GoJunction(c, c.fields["conditions"].items, 0, HasKind(c, "all"), values)
    else Invalid
  }

  ghost function GoJunction(c: Json, children: seq<Json>, i: nat, all: bool, values: Values): Result<bool>
    requires i <= |children| && forall k | 0 <= k < |children| :: children[k] < c
    decreases c, 0, |children| - i
  {
    if i == |children| then Ok(all)
    else
      var r := GoConditionAt(children[i], values);
      if !r.Ok? then r
      else if all && !r.value then Ok(false)
      else if !all && r.value then Ok(true)
      else GoJunction(c, children, i + 1, all, values)
  }

  // ---------------------------------------------------------------- agreement

  /** The expression nests no deeper than the server's limit allows from a depth on. */
  ghost predicate FitsDepth(e: Value, depth: nat) {
    && depth <= MAX_DEPTH
    && match e
       case ObjectOf(fields) => forall k | k in fields :: FitsDepth(fields[k], depth + 1)
       case ArrayOf(items) => forall i | 0 <= i < |items| :: FitsDepth(items[i], depth + 1)
       case _ => true
  }

  lemma {:induction false} DecimalRoundTrip(n: nat)
    ensures IndexOf(Decimal(n)) == Some(n)
  {
    DecimalDigits(n);
  }

  lemma {:induction false} PathsAgree(item: Json, path: seq<Key>)
    ensures
      var found := Follow(item, path);
      GoFollow(item, EncodePath(path)) == if found.None? then Missing else Ok(found.value)
  {
    if path != [] {
      assert EncodePath(path)[1..] == EncodePath(path[1..]);
      if path[0].Index? { DecimalRoundTrip(path[0].index); }
      var child := Child(item, path[0]);
      if child.Some? { PathsAgree(child.value, path[1..]); }
    }
  }

  lemma ReferencesAgree(ref: Reference, values: Values)
    ensures
      var found := Resolve(ref, values);
      GoReference(EncodeReference(ref), values) == if found.None? then Missing else Ok(found.value)
  {
    var e := EncodeReference(ref);
    assert Field(e, "source") == Some(EncodeSource(ref.source)) &&
      Field(e, "path") == Some(JArray(EncodePath(ref.path)));
    assert HasKind(EncodeSource(ref.source), "step") <==> ref.source.StepOutput?;
    var item := SourceOf(ref.source, values);
    if item.Some? { PathsAgree(item.value, ref.path); }
  }

  /** Within the depth limit the two evaluators return the same value or both report a missing reference. */
  lemma {:induction false} ValuesAgree(e: Value, values: Values, depth: nat)
    requires FitsDepth(e, depth)
    ensures GoValue(Encode(e), values, depth) == TsValue(e, values)
    decreases e, 1
  {
    match e
    case Literal(v) =>
    case Refer(ref) => ReferencesAgree(ref, values);
    case ObjectOf(fields) => ObjectsAgree(e, values, depth);
    case ArrayOf(items) => ArraysAgree(e, values, depth);
  }

  function EncodedFields(e: Value): map<string, Json> requires e.ObjectOf? {
    map k | k in e.fields :: Encode(e.fields[k])
  }

  function EncodedItems(e: Value): seq<Json> requires e.ArrayOf? {
    seq(|e.items|, i requires 0 <= i < |e.items| => Encode(e.items[i]))
  }

  lemma EncodedParts(e: Value)
    ensures e.ObjectOf? ==>
      HasKind(Encode(e), "object") && Field(Encode(e), "fields") == Some(JObject(EncodedFields(e)))
    ensures e.ArrayOf? ==> HasKind(Encode(e), "array") && Field(Encode(e), "items") == Some(JArray(EncodedItems(e)))
  {
    match e
    case ObjectOf(fields) =>
      assert Encode(e).fields["fields"].fields == EncodedFields(e);
    case ArrayOf(items) =>
      assert Encode(e).fields["items"].items == EncodedItems(e);
    case _ =>
  }

  lemma {:induction false} ObjectsAgree(e: Value, values: Values, depth: nat)
    requires e.ObjectOf? && FitsDepth(e, depth)
    ensures GoValue(Encode(e), values, depth) == TsValue(e, values)
    decreases e, 0
  {
    hide GoValue, TsValue;
    EncodedParts(e);
    var inner := EncodedFields(e);
    forall k | k in e.fields ensures GoValue(inner[k], values, depth + 1) == TsValue(e.fields[k], values) {
      ValuesAgree(e.fields[k], values, depth + 1);
    }
    GoObject(Encode(e), inner, values, depth);
    TsObject(e, values);
    if forall k | k in inner :: GoValue(inner[k], values, depth + 1).Ok? {
      assert forall k | k in e.fields :: k in inner;
      assert GoValue(Encode(e), values, depth).value.fields == TsValue(e, values).value.fields;
    }
  }

  /** All fields must evaluate; otherwise some field's error is the outcome. */
  lemma GoObject(j: Json, inner: map<string, Json>, values: Values, depth: nat)
    requires HasKind(j, "object") && Field(j, "fields") == Some(JObject(inner)) && depth <= MAX_DEPTH
    requires forall k | k in inner :: inner[k].JObject?
    ensures (forall k | k in inner :: GoValue(inner[k], values, depth + 1).Ok?) ==>
      GoValue(j, values, depth) == Ok(JObject(map k | k in inner :: GoValue(inner[k], values, depth + 1).value))
    ensures (exists k | k in inner :: !GoValue(inner[k], values, depth + 1).Ok?) ==>
      exists k | k in inner :: !GoValue(inner[k], values, depth + 1).Ok? &&
        GoValue(j, values, depth) == GoValue(inner[k], values, depth + 1)
  {
    if forall k | k in inner :: GoValue(inner[k], values, depth + 1).Ok? {
      var r := GoValue(j, values, depth);
      assert r.Ok? && r.value.JObject?;
      assert r.value.fields == map k | k in inner :: GoValue(inner[k], values, depth + 1).value;
    }
  }

  lemma TsObject(e: Value, values: Values)
    requires e.ObjectOf?
    ensures
      if forall k | k in e.fields :: TsValue(e.fields[k], values).Ok? then
        TsValue(e, values) == Ok(JObject(map k | k in e.fields :: TsValue(e.fields[k], values).value))
      else TsValue(e, values).Missing?
  {
    if forall k | k in e.fields :: TsValue(e.fields[k], values).Ok? {
      assert TsValue(e, values).value.fields == map k | k in e.fields :: TsValue(e.fields[k], values).value;
    }
  }

  lemma {:induction false} ArraysAgree(e: Value, values: Values, depth: nat)
    requires e.ArrayOf? && FitsDepth(e, depth)
    ensures GoValue(Encode(e), values, depth) == TsValue(e, values)
    decreases e, 0
  {
    EncodedParts(e);
    forall i | 0 <= i < |e.items| ensures GoValue(EncodedItems(e)[i], values, depth + 1) ==
      TsValue(e.items[i], values) {
      ValuesAgree(e.items[i], values, depth + 1);
    }
    ItemsAgree(e, 0, values, depth, []);
  }

  lemma {:induction false} ItemsAgree(e: Value, i: nat, values: Values, depth: nat, done: seq<Json>)
    requires e.ArrayOf? && i <= |e.items| == |EncodedItems(e)| && |done| == i
    requires forall k | 0 <= k < |e.items| :: EncodedItems(e)[k] < Encode(e)
    requires forall k | 0 <= k < |e.items| ::
      GoValue(EncodedItems(e)[k], values, depth + 1) == TsValue(e.items[k], values)
    requires forall k | 0 <= k < i :: TsValue(e.items[k], values) == Ok(done[k])
    ensures GoItems(Encode(e), EncodedItems(e), i, values, depth, done) == TsValue(e, values)
    decreases |e.items| - i
  {
    if i == |e.items| {
      assert done == seq(|e.items|, k requires 0 <= k < |e.items| => TsValue(e.items[k], values).value);
    } else {
      var r := TsValue(e.items[i], values);
      assert GoValue(EncodedItems(e)[i], values, depth + 1) == r;
      if r.Ok? { ItemsAgree(e, i + 1, values, depth, done + [r.value]); }
    }
  }

  lemma {:induction false} ItemsAllOk(e: Json, items: seq<Json>, i: nat, values: Values, depth: nat, done: seq<Json>,
                                      k: nat)
    requires i <= k < |items| && forall n | 0 <= n < |items| :: items[n] < e
    requires GoItems(e, items, i, values, depth, done).Ok?
    ensures items[k].JObject? && GoValue(items[k], values, depth + 1).Ok?
    decreases |items| - i
  {
    if i < k {
      ItemsAllOk(e, items, i + 1, values, depth, done + [GoValue(items[i], values, depth + 1).value], k);
    }
  }

  /** Past the depth limit the server returns no value. */
  lemma {:induction false} TooDeepIsRefused(e: Value, values: Values, depth: nat)
    requires !FitsDepth(e, depth)
    ensures !GoValue(Encode(e), values, depth).Ok?
  {
    if depth <= MAX_DEPTH {
      match e
      case ObjectOf(fields) =>
        var k :| k in fields && !FitsDepth(fields[k], depth + 1);
        TooDeepIsRefused(fields[k], values, depth + 1);
        FieldRefused(e, k, values, depth);
      case ArrayOf(items) =>
        var i :| 0 <= i < |items| && !FitsDepth(items[i], depth + 1);
        TooDeepIsRefused(items[i], values, depth + 1);
        ItemRefused(e, i, values, depth);
    }
  }

  lemma FieldRefused(e: Value, k: string, values: Values, depth: nat)
    requires e.ObjectOf? && k in e.fields && !GoValue(Encode(e.fields[k]), values, depth + 1).Ok?
    ensures !GoValue(Encode(e), values, depth).Ok?
  {
    EncodedParts(e);
    assert EncodedFields(e)[k] == Encode(e.fields[k]);
  }

  lemma ItemRefused(e: Value, i: nat, values: Values, depth: nat)
    requires e.ArrayOf? && i < |e.items| && !GoValue(Encode(e.items[i]), values, depth + 1).Ok?
    ensures !GoValue(Encode(e), values, depth).Ok?
  {
    EncodedParts(e);
    assert EncodedItems(e)[i] == Encode(e.items[i]);
    if GoValue(Encode(e), values, depth).Ok? { ItemsAllOk(Encode(e), EncodedItems(e), 0, values, depth, [], i); }
  }

  /** The expression's text decodes and its nesting is within the evaluator's limit. */
  ghost predicate Readable(e: Value) {
    Decodable(Encode(e)) && FitsDepth(e, 0)
  }

  /** What an evaluation gives, if anything, prints within the server's limit. */
  predicate Small(r: Result<Json>) {
    r.Ok? ==> Bytes(r.value) <= MAX_RESULT
  }

  /** The server evaluates a readable expression as the coordinator does, but refuses a result that is too long. */
  lemma ResolvesAlike(e: Value, values: Values)
    requires Readable(e)
    ensures GoResolveValue(Some(Encode(e)), values) == if Small(TsValue(e, values)) then TsValue(e, values) else Invalid
  {
    hide Decodable;
    ValuesAgree(e, values, 0);
  }

  /**
   * What the coordinator evaluates to a value, the server does exactly when the expression decodes and nests
   * within its limits and the value is not too long.
   */
  lemma ValueAgreesIffItFits(e: Value, values: Values)
    requires TsValue(e, values).Ok?
    ensures GoResolveValue(Some(Encode(e)), values) == TsValue(e, values) <==> Readable(e) && Small(TsValue(e, values))
  {
    hide Decodable;
    if FitsDepth(e, 0) { ValuesAgree(e, values, 0); } else { TooDeepIsRefused(e, values, 0); }
  }

  // ----------------------------------------------------- conditions

  /** Numbers are numerals and none is a negative zero. */
  ghost predicate Plain(j: Json) {
    Proper(j) && NoNegativeZero(j)
  }

  ghost predicate PlainValues(values: Values) {
    Plain(values.trigger) && forall id | id in values.steps :: Plain(values.steps[id])
  }

  ghost predicate PlainLiterals(e: Value) {
    match e
    case Literal(v) => Plain(v)
    case Refer(_) => true
    case ObjectOf(fields) => forall k | k in fields :: PlainLiterals(fields[k])
    case ArrayOf(items) => forall i | 0 <= i < |items| :: PlainLiterals(items[i])
  }

  ghost predicate PlainCondition(c: Condition) {
    match c
    case Equals(left, right) => PlainLiterals(left) && PlainLiterals(right)
    case Exists(_) => true
    case AllOf(children) => forall i | 0 <= i < |children| :: PlainCondition(children[i])
    case AnyOf(children) => forall i | 0 <= i < |children| :: PlainCondition(children[i])
    case Not(inner) => PlainCondition(inner)
  }

  /** The condition and every expression and condition in it are readable. */
  ghost predicate ReadableCondition(c: Condition) {
    && Decodable(EncodeCondition(c))
    && match c
       case Equals(left, right) => Readable(left) && Readable(right)
       case Exists(ref) => Readable(Refer(ref))
       case AllOf(children) => forall i | 0 <= i < |children| :: ReadableCondition(children[i])
       case AnyOf(children) => forall i | 0 <= i < |children| :: ReadableCondition(children[i])
       case Not(inner) => ReadableCondition(inner)
  }

  /** Every value looked at, left to right until the condition is settled, prints within the limit. */
  ghost predicate SmallOnPath(c: Condition, values: Values)
    decreases c, 1, 0
  {
    match c
    case Equals(left, right) => Small(TsValue(left, values)) &&
      (TsValue(left, values).Ok? ==> Small(TsValue(right, values)))
    case Exists(ref) => Small(TsValue(Refer(ref), values))
    case AllOf(_) => SmallFrom(c, 0, values)
    case AnyOf(_) => SmallFrom(c, 0, values)
    case Not(inner) => SmallOnPath(inner, values)
  }

  ghost predicate SmallFrom(c: Condition, i: nat, values: Values)
    requires (c.AllOf? || c.AnyOf?) && i <= |c.conditions|
    decreases c, 0, |c.conditions| - i
  {
    i < |c.conditions| ==>
      && SmallOnPath(c.conditions[i], values)
      && (TsCondition(c.conditions[i], values) == Ok(c.AllOf?) ==> SmallFrom(c, i + 1, values))
  }

  lemma {:induction false} FollowIsPlain(item: Json, path: seq<Key>)
    requires Plain(item)
    ensures Follow(item, path).Some? ==> Plain(Follow(item, path).value)
  {
    if path != [] && Child(item, path[0]).Some? { FollowIsPlain(Child(item, path[0]).value, path[1..]); }
  }

  lemma {:induction false} ValueIsPlain(e: Value, values: Values)
    requires PlainValues(values) && PlainLiterals(e)
    ensures TsValue(e, values).Ok? ==> Plain(TsValue(e, values).value)
  {
    match e
    case Literal(v) =>
    case Refer(ref) =>
      var item := SourceOf(ref.source, values);
      if item.Some? { FollowIsPlain(item.value, ref.path); }
    case ObjectOf(fields) =>
      if TsValue(e, values).Ok? {
        forall k | k in fields ensures Plain(TsValue(fields[k], values).value) { ValueIsPlain(fields[k], values); }
      }
    case ArrayOf(items) =>
      if TsValue(e, values).Ok? {
        forall i | 0 <= i < |items| ensures Plain(TsValue(items[i], values).value) { ValueIsPlain(items[i], values); }
      }
  }

  function EncodedConditions(c: Condition): seq<Json> requires c.AllOf? || c.AnyOf? {
    seq(|c.conditions|, i requires 0 <= i < |c.conditions| => EncodeCondition(c.conditions[i]))
  }

  lemma EncodedConditionParts(c: Condition)
    ensures
      var j := EncodeCondition(c);
      match c
      case Equals(left, right) => HasKind(j, "equals") && Field(j, "left") == Some(Encode(left)) &&
        Field(j, "right") == Some(Encode(right))
      case Exists(ref) => HasKind(j, "exists") && Field(j, "reference") == Some(EncodeReference(ref))
      case AllOf(_) => HasKind(j, "all") && Field(j, "conditions") == Some(JArray(EncodedConditions(c)))
      case AnyOf(_) => HasKind(j, "any") && Field(j, "conditions") == Some(JArray(EncodedConditions(c)))
      case Not(inner) => HasKind(j, "not") && Field(j, "condition") == Some(EncodeCondition(inner))
  {
    if c.AllOf? || c.AnyOf? {
      assert EncodeCondition(c).fields["conditions"].items == EncodedConditions(c);
    }
  }

  /** What the server makes of a condition: the coordinator's answer, or a refusal when a value is too long. */
  ghost predicate Answers(c: Condition, values: Values) {
    GoCondition(Some(EncodeCondition(c)), values) == if SmallOnPath(c, values) then TsCondition(c, values) else Invalid
  }

  lemma {:induction false} ConditionAnswers(c: Condition, values: Values)
    requires ReadableCondition(c) && PlainCondition(c) && PlainValues(values)
    ensures Answers(c, values)
    decreases c, 1, 0
  {
    hide Decodable, Readable;
    EncodedConditionParts(c);
    match c
    case Equals(left, right) => ComparisonAnswers(left, right, values);
    case Exists(ref) => ResolvesAlike(Refer(ref), values);
    case AllOf(children) => JunctionAnswers(c, 0, values);
    case AnyOf(children) => JunctionAnswers(c, 0, values);
    case Not(inner) => ConditionAnswers(inner, values);
  }

  lemma ComparisonAnswers(left: Value, right: Value, values: Values)
    requires ReadableCondition(Equals(left, right)) && PlainCondition(Equals(left, right)) && PlainValues(values)
    ensures Answers(Equals(left, right), values)
  {
    hide Decodable, Readable;
    EncodedConditionParts(Equals(left, right));
    ResolvesAlike(left, values);
    ResolvesAlike(right, values);
    ValueIsPlain(left, values);
    ValueIsPlain(right, values);
    var a, b := TsValue(left, values), TsValue(right, values);
    if a.Ok? && b.Ok? { AlikeIffNoNegativeZero(a.value); }
  }

  ghost predicate EncodedSmaller(c: Condition) requires c.AllOf? || c.AnyOf? {
    forall k | 0 <= k < |c.conditions| :: EncodedConditions(c)[k] < EncodeCondition(c)
  }

  lemma EncodedAreSmaller(c: Condition)
    requires c.AllOf? || c.AnyOf?
    ensures EncodedSmaller(c) && forall k | 0 <= k < |c.conditions| ::
      EncodedConditions(c)[k] == EncodeCondition(c.conditions[k])
  {
    EncodedConditionParts(c);
  }

  lemma {:induction false} JunctionAnswers(c: Condition, i: nat, values: Values)
    requires c.AllOf? || c.AnyOf?
    requires ReadableCondition(c) && PlainCondition(c) && PlainValues(values) && i <= |c.conditions|
    ensures EncodedSmaller(c)
    ensures GoJunction(EncodeCondition(c), EncodedConditions(c), i, c.AllOf?, values)
         == if SmallFrom(c, i, values) then TsJunction(c, i, values) else Invalid
    decreases c, 0, |c.conditions| - i
  {
    hide Decodable, Readable, Bytes, PlainValues, EncodeCondition, TsCondition, SmallOnPath;
    EncodedAreSmaller(c);
    if i < |c.conditions| {
      ConditionAnswers(c.conditions[i], values);
      JunctionAnswers(c, i + 1, values);
    }
  }

  /**
   * Away from negative zero, the two runtimes give a readable condition the same truth or the same missing
   * reference exactly when no value looked at is too long for the server.
   */
  lemma ConditionsAgree(c: Condition, values: Values)
    requires ReadableCondition(c) && PlainCondition(c) && PlainValues(values)
    ensures GoCondition(Some(EncodeCondition(c)), values) == TsCondition(c, values) <==> SmallOnPath(c, values)
  {
    ConditionAnswers(c, values);
  }

  /**
   * Two values that both evaluate are compared alike exactly when neither is too long for the server and they
   * do not differ only in the sign of some zero.
   */
  lemma ComparisonAgreesIff(left: Value, right: Value, values: Values)
    requires ReadableCondition(Equals(left, right))
    requires TsValue(left, values).Ok? && TsValue(right, values).Ok?
    requires Proper(TsValue(left, values).value) && Proper(TsValue(right, values).value)
    ensures
      var a, b := TsValue(left, values).value, TsValue(right, values).value;
      && (GoCondition(Some(EncodeCondition(Equals(left, right))), values) == TsCondition(Equals(left, right), values)
          <==> Bytes(a) <= MAX_RESULT && Bytes(b) <= MAX_RESULT && (a == b || Merged(TS, a) != Merged(TS, b)))
  {
    hide Decodable, Readable, Bytes, Merged, TsEqual, GoEqual, Proper, EncodeCondition, Encode, GoResolveValue;
    EncodedConditionParts(Equals(left, right));
    ResolvesAlike(left, values);
    ResolvesAlike(right, values);
    EqualitiesAgree(TsValue(left, values).value, TsValue(right, values).value);
  }

  function Referring(id: string): Reference {
    Reference(StepOutput(id), [])
  }

  function Thrice(id: string): Value {
    ArrayOf([Refer(Referring(id)), Refer(Referring(id)), Refer(Referring(id))])
  }

  /** Three copies of a result well under the coordinator's limit can be too long for the server. */
  lemma LongValueDiffers(id: string, values: Values)
    requires id in values.steps && Proper(values.steps[id]) && 3 * Bytes(values.steps[id]) > MAX_RESULT
    requires ReadableCondition(Equals(Thrice(id), Thrice(id)))
    ensures
      var c := Equals(Thrice(id), Thrice(id));
      TsCondition(c, values) == Ok(true) && GoCondition(Some(EncodeCondition(c)), values) == Invalid
  {
    hide Decodable, Readable, Bytes;
    var v := values.steps[id];
    var r := TsValue(Thrice(id), values);
    var ref := Refer(Referring(id));
    assert TsValue(ref, values) == Ok(v);
    assert Thrice(id).items[0] == ref && Thrice(id).items[1] == ref && Thrice(id).items[2] == ref;
    assert r.Ok? && r.value.items == [v, v, v];
    ThreeAreLonger(v);
    EncodedConditionParts(Equals(Thrice(id), Thrice(id)));
    ResolvesAlike(Thrice(id), values);
  }

  lemma ThreeAreLonger(v: Json)
    ensures Bytes(JArray([v, v, v])) >= 3 * Bytes(v)
  {
    hide Utf8Length;
    var j := JArray([v, v, v]);
    Utf8Concat("[", PrintItems(GO, j, 0));
    Utf8Concat("", Print(GO, v) + PrintItems(GO, j, 1));
    Utf8Concat(Print(GO, v), PrintItems(GO, j, 1));
    Utf8Concat(",", Print(GO, v) + PrintItems(GO, j, 2));
    Utf8Concat(Print(GO, v), PrintItems(GO, j, 2));
    Utf8Concat(",", Print(GO, v) + PrintItems(GO, j, 3));
    Utf8Concat(Print(GO, v), PrintItems(GO, j, 3));
  }

  lemma ReferenceBound(id: string)
    requires |id| <= 10
    ensures Bytes(EncodeReference(Referring(id))) <= 4000
  {
    hide Quote, Utf8Length;
    var source := EncodeSource(StepOutput(id));
    assert source.fields.Keys == {KIND, "stepId"} && |source.fields| == |source.fields.Keys| == 2;
    TextBound("step");
    TextBound(id);
    QuoteBound(KIND);
    QuoteBound("stepId");
    ObjectBound(source, 420);
    ArrayBound(JArray([]), 0);
    var j := EncodeReference(Referring(id));
    assert EncodePath([]) == [];
    assert j.fields.Keys == {KIND, "source", "path"} && |j.fields| == |j.fields.Keys| == 3;
    TextBound("reference");
    QuoteBound("source");
    QuoteBound("path");
    ObjectBound(j, 1200);
  }

  lemma ThriceBound(id: string)
    requires |id| <= 10
    ensures Bytes(Encode(Thrice(id))) <= 30_000
  {
    hide Quote, Utf8Length, Bytes, EncodeReference;
    ReferenceBound(id);
    var e := Thrice(id);
    var j, items := Encode(e), JArray(EncodedItems(e));
    assert forall k | 0 <= k < 3 :: items.items[k] == EncodeReference(Referring(id));
    ArrayBound(items, 4000);
    EncodedParts(e);
    assert j.fields.Keys == {KIND, "items"} && |j.fields| == |j.fields.Keys| == 2;
    TextBound("array");
    QuoteBound(KIND);
    QuoteBound("items");
    ObjectBound(j, 13_000);
  }

  lemma EqualsBound(left: Value, right: Value, b: nat)
    requires Bytes(Encode(left)) <= b && Bytes(Encode(right)) <= b && b >= 200
    ensures Bytes(EncodeCondition(Equals(left, right))) <= 3 * b + 1000
  {
    hide Quote, Utf8Length, Bytes, Encode;
    var j := EncodeCondition(Equals(left, right));
    assert j.fields.Keys == {KIND, "left", "right"} && |j.fields| == |j.fields.Keys| == 3;
    TextBound("equals");
    QuoteBound(KIND);
    QuoteBound("left");
    QuoteBound("right");
    ObjectBound(j, b + 200);
  }

  lemma ThriceIsShallow(id: string)
    ensures Nested(Encode(Thrice(id)), 0, MAX_NESTING) && FitsDepth(Thrice(id), 0)
    ensures Nested(EncodeCondition(Equals(Thrice(id), Thrice(id))), 0, MAX_NESTING)
  {
    var ref := EncodeReference(Referring(id));
    assert EncodePath([]) == [];
    forall depth: nat | depth <= 4 ensures Nested(ref, depth, MAX_NESTING) {
      var source := ref.fields["source"];
      assert forall k | k in source.fields :: Nested(source.fields[k], depth + 2, MAX_NESTING);
      assert forall k | k in ref.fields :: Nested(ref.fields[k], depth + 1, MAX_NESTING);
    }
    var e := Thrice(id);
    var j, items := Encode(e), JArray(EncodedItems(e));
    EncodedParts(e);
    assert forall k | 0 <= k < 3 :: items.items[k] == ref;
    forall depth: nat | depth <= 1 ensures Nested(j, depth, MAX_NESTING) {
      assert Nested(items, depth + 1, MAX_NESTING);
      assert j.fields.Keys == {KIND, "items"} && j.fields["items"] == items;
      assert forall k | k in j.fields :: Nested(j.fields[k], depth + 1, MAX_NESTING);
    }
    var c := EncodeCondition(Equals(e, e));
    assert forall k | k in c.fields :: Nested(c.fields[k], 1, MAX_NESTING);
  }

  /** A text of 400 KiB, well within what the coordinator takes from one step. */
  function LongText(): string {
    seq(0x6_4000, _ => 'x')
  }

  /** Three copies of one step's text compared with themselves: true in the coordinator, refused by the server. */
  lemma LongTextDiffers()
    ensures
      var c, values := Equals(Thrice("a"), Thrice("a")), Values(JNull, map["a" := JString(LongText())]);
      && Bytes(values.steps["a"]) <= 0x8_0000
      && TsCondition(c, values) == Ok(true) && GoCondition(Some(EncodeCondition(c)), values) == Invalid
  {
    hide TsCondition, GoCondition, Bytes, Thrice, Encode, EncodeCondition, Nested, FitsDepth;
    LetterBytes(LongText());
    ThriceBound("a");
    EqualsBound(Thrice("a"), Thrice("a"), 30_000);
    ThriceIsShallow("a");
    LongValueDiffers("a", Values(JNull, map["a" := JString(LongText())]));
  }

  /** The comparison of two numbers is readable. */
  lemma NumbersAreReadable(a: string, b: string)
    requires |a| <= 10 && |b| <= 10
    ensures ReadableCondition(Equals(Literal(JNumber(a)), Literal(JNumber(b))))
    ensures Bytes(JNumber(a)) <= 40 && Bytes(JNumber(b)) <= 40
  {
    hide Bytes, Print, Quote, Utf8Length, Nested;
    NumbersAreShallow(a, b);
    LiteralBound(a);
    LiteralBound(b);
    EqualsBound(Literal(JNumber(a)), Literal(JNumber(b)), 1000);
  }

  lemma NumbersAreShallow(a: string, b: string)
    ensures
      var left, right := Literal(JNumber(a)), Literal(JNumber(b));
      && Nested(EncodeCondition(Equals(left, right)), 0, MAX_NESTING)
      && Nested(Encode(left), 0, MAX_NESTING) && Nested(Encode(right), 0, MAX_NESTING)
  {
    var left, right := Literal(JNumber(a)), Literal(JNumber(b));
    forall depth: nat | depth <= 2
      ensures Nested(Encode(left), depth, MAX_NESTING) && Nested(Encode(right), depth, MAX_NESTING) {
      assert forall k | k in Encode(left).fields :: Nested(Encode(left).fields[k], depth + 1, MAX_NESTING);
      assert forall k | k in Encode(right).fields :: Nested(Encode(right).fields[k], depth + 1, MAX_NESTING);
    }
    var j := EncodeCondition(Equals(left, right));
    assert forall k | k in j.fields :: Nested(j.fields[k], 1, MAX_NESTING);
  }

  lemma LiteralBound(a: string)
    requires |a| <= 10
    ensures Bytes(JNumber(a)) <= 40 && Bytes(Encode(Literal(JNumber(a)))) <= 1000
  {
    hide Quote, Utf8Length;
    var j := Encode(Literal(JNumber(a)));
    assert j.fields.Keys == {KIND, "value"} && |j.fields| == |j.fields.Keys| == 2;
    WidthBound(a);
    TextBound("literal");
    QuoteBound(KIND);
    QuoteBound("value");
    ObjectBound(j, 400);
  }

  lemma TextBound(text: string)
    ensures Bytes(JString(text)) <= 24 * |text| + 2
  {
    QuoteBound(text);
  }

  /** The coordinator takes a negative zero for zero and the server does not. */
  lemma NegativeZeroDiffers(values: Values)
    ensures
      var c := Equals(Literal(JNumber("-0")), Literal(JNumber("0")));
      TsCondition(c, values) == Ok(true) && GoCondition(Some(EncodeCondition(c)), values) == Ok(false)
  {
    hide ReadableCondition, Bytes, GoEqual;
    var a, b := JNumber("-0"), JNumber("0");
    NumbersAreReadable("-0", "0");
    GoEqualIsIdentity(a, b);
    BothTaken(Literal(a), Literal(b), values);
  }

  lemma BothTaken(left: Value, right: Value, values: Values)
    requires ReadableCondition(Equals(left, right))
    requires TsValue(left, values).Ok? && TsValue(right, values).Ok? && Small(TsValue(left, values)) &&
      Small(TsValue(right, values))
    ensures GoCondition(Some(EncodeCondition(Equals(left, right))), values)
         == Ok(GoEqual(TsValue(left, values).value, TsValue(right, values).value))
  {
    hide Decodable, Readable, Bytes;
    EncodedConditionParts(Equals(left, right));
    ResolvesAlike(left, values);
    ResolvesAlike(right, values);
  }

  // ------------------------------------------------- what admission ensures

  const MAX_TREE_DEPTH := 32
  const MAX_DEFINITION := 0x10_0000

  /** A definition that passed admission: its tree is bounded and its text is not too long. */
  predicate AdmittedText(definition: Json) {
    Nested(definition, 0, MAX_TREE_DEPTH) && Bytes(definition) <= MAX_DEFINITION
  }

  /** Every level of an expression takes levels of its text. */
  lemma {:induction false} NestedFits(e: Value, depth: nat, level: nat)
    requires Nested(Encode(e), level, MAX_TREE_DEPTH) && depth <= level
    ensures FitsDepth(e, depth)
  {
    hide Encode;
    EncodedParts(e);
    match e
    case ObjectOf(fields) =>
      var inner := JObject(EncodedFields(e));
      assert Nested(inner, level + 1, MAX_TREE_DEPTH) by { assert Encode(e).fields["fields"] == inner; }
      forall k | k in fields ensures FitsDepth(fields[k], depth + 1) {
        assert inner.fields[k] == Encode(fields[k]);
        NestedFits(fields[k], depth + 1, level + 2);
      }
    case ArrayOf(items) =>
      var inner := JArray(EncodedItems(e));
      assert Nested(inner, level + 1, MAX_TREE_DEPTH) by { assert Encode(e).fields["items"] == inner; }
      forall i | 0 <= i < |items| ensures FitsDepth(items[i], depth + 1) {
        assert inner.items[i] == Encode(items[i]);
        NestedFits(items[i], depth + 1, level + 2);
      }
    case _ =>
  }

  /** Every expression of an admitted definition is readable. */
  lemma AdmittedIsReadable(definition: Json, e: Value)
    requires AdmittedText(definition) && Contains(definition, Encode(e))
    ensures Readable(e)
  {
    hide Bytes, Nested;
    PartBytes(definition, Encode(e));
    PartNested(definition, Encode(e), 0, MAX_TREE_DEPTH);
    NestedShallower(Encode(e), 0, MAX_TREE_DEPTH, 0, MAX_NESTING);
    NestedFits(e, 0, 0);
  }

  lemma {:induction false} ContainsDeeper(j: Json, part: Json, inner: Json)
    requires Contains(j, part) && Contains(part, inner)
    ensures Contains(j, inner)
  {
    if j != part {
      if j.JArray? {
        var i :| 0 <= i < |j.items| && Contains(j.items[i], part);
        ContainsDeeper(j.items[i], part, inner);
      } else {
        var k :| k in j.fields && Contains(j.fields[k], part);
        ContainsDeeper(j.fields[k], part, inner);
      }
    }
  }

  lemma ContainsField(j: Json, key: string, value: Json)
    requires Field(j, key) == Some(value)
    ensures Contains(j, value)
  {
    assert Contains(j.fields[key], value);
  }

  /**
   * Every condition of an admitted definition is readable throughout, so only the length of values can tell
   * the runtimes apart.
   */
  lemma {:induction false} AdmittedConditionIsReadable(definition: Json, c: Condition)
    requires AdmittedText(definition) && Contains(definition, EncodeCondition(c))
    ensures ReadableCondition(c)
    decreases c, 1
  {
    hide AdmittedText, Contains, Decodable;
    var j := EncodeCondition(c);
    EncodedConditionParts(c);
    AdmittedDecodes(definition, j);
    match c
    case Equals(left, right) =>
      ContainsField(j, "left", Encode(left));
      ContainsField(j, "right", Encode(right));
      ContainsDeeper(definition, j, Encode(left));
      ContainsDeeper(definition, j, Encode(right));
      AdmittedIsReadable(definition, left);
      AdmittedIsReadable(definition, right);
    case Exists(ref) =>
      ContainsField(j, "reference", EncodeReference(ref));
      ContainsDeeper(definition, j, EncodeReference(ref));
      AdmittedIsReadable(definition, Refer(ref));
    case AllOf(children) => AdmittedChildren(definition, c);
    case AnyOf(children) => AdmittedChildren(definition, c);
    case Not(inner) =>
      ContainsField(j, "condition", EncodeCondition(inner));
      ContainsDeeper(definition, j, EncodeCondition(inner));
      AdmittedConditionIsReadable(definition, inner);
  }

  lemma AdmittedDecodes(definition: Json, j: Json)
    requires AdmittedText(definition) && Contains(definition, j)
    ensures Decodable(j)
  {
    hide Bytes, Nested, Contains;
    PartBytes(definition, j);
    PartNested(definition, j, 0, MAX_TREE_DEPTH);
    NestedShallower(j, 0, MAX_TREE_DEPTH, 0, MAX_NESTING);
  }

  lemma {:induction false} AdmittedChildren(definition: Json, c: Condition)
    requires (c.AllOf? || c.AnyOf?) && AdmittedText(definition) && Contains(definition, EncodeCondition(c))
    ensures forall i | 0 <= i < |c.conditions| :: ReadableCondition(c.conditions[i])
    decreases c, 0
  {
    hide AdmittedText, Decodable;
    var j, list := EncodeCondition(c), JArray(EncodedConditions(c));
    EncodedConditionParts(c);
    ContainsField(j, "conditions", list);
    ContainsDeeper(definition, j, list);
    forall i | 0 <= i < |c.conditions| ensures ReadableCondition(c.conditions[i]) {
      assert list.items[i] == EncodeCondition(c.conditions[i]);
      assert Contains(list.items[i], EncodeCondition(c.conditions[i]));
      ContainsDeeper(definition, list, EncodeCondition(c.conditions[i]));
      AdmittedConditionIsReadable(definition, c.conditions[i]);
    }
  }

  // ------------------------------------------------- references name earlier steps

  /** The walk over an expression's or a condition's wire form; what a literal holds is data and is not walked. */
  predicate ReferencesValid(item: Json, seen: set<string>)
    decreases item
  {
    match item
    case JObject(fields) =>
      if HasKind(item, "literal") then true
      else if HasKind(item, "reference") then
        var source := Field(item, "source");
        source.Some? && (HasKind(source.value, "trigger")
          || (HasKind(source.value, "step") && exists id ::
              id in seen && Field(source.value, "stepId") == Some(JString(id))))
      else if HasKind(item, "object") &&
        !(match Field(item, "fields") case Some(JObject(inner)) => |inner| <= MAX_FIELDS case _ => false) then false
      else forall k | k in fields :: ReferencesValid(fields[k], seen)
    case JArray(items) => forall i | 0 <= i < |items| :: ReferencesValid(items[i], seen)
    case _ => true
  }

  lemma ReferenceCheck(ref: Reference, seen: set<string>)
    ensures ReferencesValid(EncodeReference(ref), seen) <==> ReferenceNames(ref, seen)
  {
    var j := EncodeReference(ref);
    assert Field(j, "source") == Some(EncodeSource(ref.source)) && HasKind(j, "reference");
    match ref.source
    case Trigger =>
    case StepOutput(id) =>
      assert Field(EncodeSource(ref.source), "stepId") == Some(JString(id));
  }

  /** The untyped walk accepts an expression exactly when its references name steps already seen. */
  lemma {:induction false} ValueCheck(e: Value, seen: set<string>)
    ensures ReferencesValid(Encode(e), seen) <==> NamesOnly(e, seen)
  {
    match e
    case Literal(v) => assert HasKind(Encode(e), "literal");
    case Refer(ref) => ReferenceCheck(ref, seen);
    case ObjectOf(fields) =>
      forall k | k in fields ensures ReferencesValid(Encode(fields[k]), seen) <==> NamesOnly(fields[k], seen) {
        ValueCheck(fields[k], seen);
      }
      ObjectCheck(e, seen);
    case ArrayOf(items) =>
      forall i | 0 <= i < |items| ensures ReferencesValid(Encode(items[i]), seen) <==> NamesOnly(items[i], seen) {
        ValueCheck(items[i], seen);
      }
      ArrayCheck(e, seen);
  }

  lemma WalkObject(j: Json, inner: map<string, Json>, seen: set<string>)
    requires j == JObject(Tagged("object")["fields" := JObject(inner)]) && forall k | k in inner :: inner[k].JObject?
    ensures ReferencesValid(j, seen) <==> |inner| <= MAX_FIELDS && forall k | k in inner ::
      ReferencesValid(inner[k], seen)
  {
    assert HasKind(j, "object") && Field(j, "fields") == Some(JObject(inner));
    assert j.fields.Keys == {KIND, "fields"};
    assert ReferencesValid(j.fields[KIND], seen);
  }

  lemma WalkArray(j: Json, inner: seq<Json>, seen: set<string>)
    requires j == JObject(Tagged("array")["items" := JArray(inner)])
    ensures ReferencesValid(j, seen) <==> forall i | 0 <= i < |inner| :: ReferencesValid(inner[i], seen)
  {
    assert HasKind(j, "array");
    assert j.fields.Keys == {KIND, "items"};
    assert ReferencesValid(j.fields[KIND], seen);
    assert ReferencesValid(j.fields["items"], seen) <==> forall i | 0 <= i < |inner| :: ReferencesValid(inner[i], seen);
  }

  lemma ObjectCheck(e: Value, seen: set<string>)
    requires e.ObjectOf? && forall k | k in e.fields ::
      ReferencesValid(Encode(e.fields[k]), seen) <==> NamesOnly(e.fields[k], seen)
    ensures ReferencesValid(Encode(e), seen) <==> NamesOnly(e, seen)
  {
    hide ReferencesValid;
    var inner := EncodedFields(e);
    assert inner.Keys == e.fields.Keys && |inner| == |inner.Keys| && |e.fields| == |e.fields.Keys|;
    assert Encode(e) == JObject(Tagged("object")["fields" := JObject(inner)]);
    WalkObject(Encode(e), inner, seen);
  }

  lemma ArrayCheck(e: Value, seen: set<string>)
    requires e.ArrayOf? && forall i | 0 <= i < |e.items| ::
      ReferencesValid(Encode(e.items[i]), seen) <==> NamesOnly(e.items[i], seen)
    ensures ReferencesValid(Encode(e), seen) <==> NamesOnly(e, seen)
  {
    hide ReferencesValid;
    var inner := EncodedItems(e);
    assert Encode(e) == JObject(Tagged("array")["items" := JArray(inner)]);
    WalkArray(Encode(e), inner, seen);
    forall i | 0 <= i < |inner| ensures ReferencesValid(inner[i], seen) <==> NamesOnly(e.items[i], seen) {
      assert inner[i] == Encode(e.items[i]);
    }
    assert NamesOnly(e, seen) <==> forall i | 0 <= i < |inner| :: NamesOnly(e.items[i], seen);
  }

  lemma {:induction false} ConditionCheck(c: Condition, seen: set<string>)
    ensures ReferencesValid(EncodeCondition(c), seen) <==> ConditionNamesOnly(c, seen)
    decreases c, 1
  {
    var j := EncodeCondition(c);
    EncodedConditionParts(c);
    match c
    case Equals(left, right) =>
      ValueCheck(left, seen);
      ValueCheck(right, seen);
      assert j.fields.Keys == {KIND, "left", "right"};
    case Exists(ref) =>
      ReferenceCheck(ref, seen);
      assert j.fields.Keys == {KIND, "reference"};
    case AllOf(children) => ChildrenCheck(c, seen);
    case AnyOf(children) => ChildrenCheck(c, seen);
    case Not(inner) =>
      ConditionCheck(inner, seen);
      assert j.fields.Keys == {KIND, "condition"};
  }

  lemma {:induction false} ChildrenCheck(c: Condition, seen: set<string>)
    requires c.AllOf? || c.AnyOf?
    ensures ReferencesValid(EncodeCondition(c), seen) <==> ConditionNamesOnly(c, seen)
    decreases c, 0
  {
    EncodedConditionParts(c);
    var j, inner := EncodeCondition(c), EncodedConditions(c);
    forall i | 0 <= i < |c.conditions|
      ensures ReferencesValid(inner[i], seen) <==> ConditionNamesOnly(c.conditions[i], seen) {
      ConditionCheck(c.conditions[i], seen);
    }
    assert ReferencesValid(JArray(inner), seen) <==> forall i | 0 <= i < |c.conditions| ::
      ReferencesValid(inner[i], seen);
    assert j.fields.Keys == {KIND, "conditions"};
    assert j.fields["conditions"] == JArray(inner);
  }
}
