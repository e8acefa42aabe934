/** How long a JSON value's printed text is in bytes, and how deeply the value nests. */
module JsonSizes {
  import opened OrderedStrings
  import opened JsonValues
  import opened JsonCanonical

  function Utf8Width(c: char): nat {
    if c < '\U{80}' then 1 else if c < '\U{800}' then 2 else if c < '\U{10000}' then 3 else 4
  }

  function Utf8Length(s: string): nat {
    if s == "" then 0 else Utf8Width(s[0]) + Utf8Length(s[1..])
  }

  /** The length of what json.Marshal prints. */
  function Bytes(j: Json): nat {
    Utf8Length(Print(GO, j))
  }

  /** Counting from a depth, no part of the value lies deeper than a limit. */
  predicate Nested(j: Json, depth: nat, limit: nat)
    decreases j
  {
    && depth <= limit
    && match j
       case JArray(items) => forall i | 0 <= i < |items| :: Nested(items[i], depth + 1, limit)
       case JObject(fields) => forall k | k in fields :: Nested(fields[k], depth + 1, limit)
       case _ => true
  }

  /** The part is the value itself or lies somewhere inside it. */
  ghost predicate Contains(j: Json, part: Json)
    decreases j
  {
    || j == part
    || (j.JArray? && exists i | 0 <= i < |j.items| :: Contains(j.items[i], part))
    || (j.JObject? && exists k | k in j.fields :: Contains(j.fields[k], part))
  }

  lemma {:induction false} Utf8Concat(a: string, b: string)
    ensures Utf8Length(a + b) == Utf8Length(a) + Utf8Length(b)
  {
    if a == "" {
      assert a + b == b;
    } else {
      assert (a + b)[1..] == a[1..] + b;
      Utf8Concat(a[1..], b);
    }
  }

  lemma {:induction false} NestedShallower(j: Json, depth: nat, limit: nat, shallower: nat, higher: nat)
    requires Nested(j, depth, limit) && shallower <= depth && limit <= higher
    ensures Nested(j, shallower, higher)
  {
    match j
    case JArray(items) =>
      forall i | 0 <= i < |items| ensures Nested(items[i], shallower + 1, higher) {
        NestedShallower(items[i], depth + 1, limit, shallower + 1, higher);
      }
    case JObject(fields) =>
      forall k | k in fields ensures Nested(fields[k], shallower + 1, higher) {
        NestedShallower(fields[k], depth + 1, limit, shallower + 1, higher);
      }
    case _ =>
  }

  /** A part nests no deeper than the whole. */
  lemma {:induction false} PartNested(j: Json, part: Json, depth: nat, limit: nat)
    requires Contains(j, part) && Nested(j, depth, limit)
    ensures Nested(part, 0, limit)
  {
    if j == part {
      NestedShallower(j, depth, limit, 0, limit);
    } else if j.JArray? {
      var i :| 0 <= i < |j.items| && Contains(j.items[i], part);
      PartNested(j.items[i], part, depth + 1, limit);
    } else {
      var k :| k in j.fields && Contains(j.fields[k], part);
      PartNested(j.fields[k], part, depth + 1, limit);
    }
  }

  lemma {:induction false} ItemBytes(j: Json, i: nat, k: nat)
    requires j.JArray? && i <= k < |j.items|
    ensures Bytes(j.items[k]) <= Utf8Length(PrintItems(GO, j, i))
    decreases k - i
  {
    hide Utf8Length, Print;
    var comma := if i == 0 then "" else ",";
    Utf8Concat(comma, Print(GO, j.items[i]) + PrintItems(GO, j, i + 1));
    Utf8Concat(Print(GO, j.items[i]), PrintItems(GO, j, i + 1));
    if i < k { ItemBytes(j, i + 1, k); }
  }

  lemma {:induction false} FieldBytes(j: Json, keys: seq<string>, i: nat, k: nat)
    requires KeysOf(keys, j) && i <= k < |keys|
    ensures keys[k] in j.fields && Bytes(j.fields[keys[k]]) <= Utf8Length(PrintFields(GO, j, keys, i))
    decreases k - i
  {
    hide Utf8Length, Print, Quote;
    assert keys[i] in keys && keys[k] in keys;
    var comma, key, value, more := if i == 0 then "" else ",", Quote(GO, keys[i]), Print(GO, j.fields[keys[i]]),
      PrintFields(GO, j, keys, i + 1);
    Utf8Concat(comma, key + (":" + (value + more)));
    Utf8Concat(key, ":" + (value + more));
    Utf8Concat(":", value + more);
    Utf8Concat(value, more);
    if i < k { FieldBytes(j, keys, i + 1, k); }
  }

  /** What a value inside a list or an object prints is part of what the whole prints. */
  lemma ChildBytes(j: Json, k: string, i: nat)
    ensures j.JArray? && i < |j.items| ==> Bytes(j.items[i]) <= Bytes(j)
    ensures j.JObject? && k in j.fields ==> Bytes(j.fields[k]) <= Bytes(j)
  {
    if j.JArray? && i < |j.items| {
      ItemBytes(j, 0, i);
      Utf8Concat("[", PrintItems(GO, j, 0));
    }
    if j.JObject? && k in j.fields {
      var keys := OrderedKeys(j);
      var n :| 0 <= n < |keys| && keys[n] == k;
      FieldBytes(j, keys, 0, n);
      Utf8Concat("{", PrintFields(GO, j, keys, 0));
    }
  }

  lemma OrderedKeys(j: Json) returns (keys: seq<string>)
    requires j.JObject?
    ensures keys == GO.order(j.fields.Keys) && KeysOf(keys, j) && |keys| == |j.fields|
    ensures forall k | k in j.fields :: k in keys
  {
    keys := GO.order(j.fields.Keys);
    BothSortKeys();
    assert Enumerates(keys, j.fields.Keys);
    DistinctLength(keys);
    assert Elements(keys) == j.fields.Keys;
  }

  /** A part prints no longer than the whole. */
  lemma {:induction false} PartBytes(j: Json, part: Json)
    requires Contains(j, part)
    ensures Bytes(part) <= Bytes(j)
    decreases j
  {
    hide Bytes;
    if j != part {
      if j.JArray? {
        var i :| 0 <= i < |j.items| && Contains(j.items[i], part);
        PartBytes(j.items[i], part);
        ChildBytes(j, "", i);
      } else {
        var k :| k in j.fields && Contains(j.fields[k], part);
        PartBytes(j.fields[k], part);
        ChildBytes(j, k, 0);
      }
    }
  }

  // ------------------------------------------------------------ upper bounds

  lemma {:induction false} QuoteBound(text: string)
    ensures Utf8Length(Quote(GO, text)) <= 24 * |text| + 2
  {
    Utf8Concat("\"" + Escape(GO, text), "\"");
    Utf8Concat("\"", Escape(GO, text));
    EscapeBound(text);
    assert Utf8Length("\"") == 1;
  }

  lemma {:induction false} EscapeBound(text: string)
    ensures Utf8Length(Escape(GO, text)) <= 24 * |text|
  {
    hide EscapeChar;
    if text != "" {
      Utf8Concat(EscapeChar(GO, text[0]), Escape(GO, text[1..]));
      EscapeBound(text[1..]);
      WidthBound(EscapeChar(GO, text[0]));
      EscapeCharBound(text[0]);
    }
  }

  lemma EscapeCharBound(c: char)
    ensures |EscapeChar(GO, c)| <= 6
  {
  }

  lemma {:induction false} WidthBound(s: string)
    ensures Utf8Length(s) <= 4 * |s|
  {
    if s != "" { WidthBound(s[1..]); }
  }

  lemma OneByte()
    ensures Utf8Length("") == 0 && Utf8Length("}") == Utf8Length("{") == Utf8Length(":") == Utf8Length(",") == 1
    ensures Utf8Length("[") == Utf8Length("]") == 1
  {
    assert "["[1..] == "" && "]"[1..] == "";
    assert "}"[1..] == "" && "{"[1..] == "" && ":"[1..] == "" && ","[1..] == "";
  }

  lemma OneMore(n: nat, b: nat)
    requires n > 0
    ensures n * b == (n - 1) * b + b
  {
  }

  lemma {:induction false} FieldsBound(j: Json, keys: seq<string>, i: nat, b: nat)
    requires KeysOf(keys, j) && i <= |keys|
    requires forall k | k in j.fields :: Utf8Length(Quote(GO, k)) + Bytes(j.fields[k]) <= b
    ensures Utf8Length(PrintFields(GO, j, keys, i)) <= (|keys| - i) * (b + 2) + 1
    decreases |keys| - i
  {
    hide Print, Quote, Utf8Length;
    OneByte();
    if i < |keys| {
      assert keys[i] in keys;
      var comma, key, value, more := if i == 0 then "" else ",", Quote(GO, keys[i]), Print(GO, j.fields[keys[i]]),
        PrintFields(GO, j, keys, i + 1);
      FieldsBound(j, keys, i + 1, b);
      Utf8Concat(comma, key + (":" + (value + more)));
      Utf8Concat(key, ":" + (value + more));
      Utf8Concat(":", value + more);
      Utf8Concat(value, more);
      OneMore(|keys| - i, b + 2);
    }
  }

  /** An object prints no longer than its fields do at their longest. */
  lemma ObjectBound(j: Json, b: nat)
    requires j.JObject? && forall k | k in j.fields :: Utf8Length(Quote(GO, k)) + Bytes(j.fields[k]) <= b
    ensures Bytes(j) <= |j.fields| * (b + 2) + 2
  {
    hide Utf8Length, Quote;
    var keys := OrderedKeys(j);
    FieldsBound(j, keys, 0, b);
    Utf8Concat("{", PrintFields(GO, j, keys, 0));
    OneByte();
  }

  lemma {:induction false} ItemsBound(j: Json, i: nat, b: nat)
    requires j.JArray? && i <= |j.items| && forall k | 0 <= k < |j.items| :: Bytes(j.items[k]) <= b
    ensures Utf8Length(PrintItems(GO, j, i)) <= (|j.items| - i) * (b + 1) + 1
    decreases |j.items| - i
  {
    hide Print, Utf8Length;
    OneByte();
    if i < |j.items| {
      var comma, item, more := if i == 0 then "" else ",", Print(GO, j.items[i]), PrintItems(GO, j, i + 1);
      ItemsBound(j, i + 1, b);
      Utf8Concat(comma, item + more);
      Utf8Concat(item, more);
      OneMore(|j.items| - i, b + 1);
    }
  }

  /** An array prints no longer than its items do at their longest. */
  lemma ArrayBound(j: Json, b: nat)
    requires j.JArray? && forall k | 0 <= k < |j.items| :: Bytes(j.items[k]) <= b
    ensures Bytes(j) <= |j.items| * (b + 1) + 2
  {
    hide Utf8Length;
    ItemsBound(j, 0, b);
    Utf8Concat("[", PrintItems(GO, j, 0));
    OneByte();
  }

  lemma {:induction false} LettersEscaped(text: string)
    requires forall i | 0 <= i < |text| :: 'a' <= text[i] <= 'z'
    ensures Utf8Length(Escape(GO, text)) == |text|
  {
    if text != "" {
      Utf8Concat([text[0]], Escape(GO, text[1..]));
      LettersEscaped(text[1..]);
      assert [text[0]][1..] == "";
    }
  }

  /** Letters print as themselves between quotes. */
  lemma LetterBytes(text: string)
    requires forall i | 0 <= i < |text| :: 'a' <= text[i] <= 'z'
    ensures Bytes(JString(text)) == |text| + 2
  {
    LettersEscaped(text);
    Utf8Concat("\"" + Escape(GO, text), "\"");
    Utf8Concat("\"", Escape(GO, text));
    assert "\""[1..] == "";
  }
}
