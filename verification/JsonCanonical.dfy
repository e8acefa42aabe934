/**
 * The canonical text of a JSON value, as the coordinator compares values by (routine-coordinator.ts lines
 * 47-51) and as json.Marshal prints them for EqualJSON (contracts.go lines 444-452), with a reader that
 * takes either text back to the value.
 */
module JsonCanonical {
  import opened OrderedStrings
  import opened JsonValues

  /**
   * How a runtime prints: whether <, >, & and the two line separators are escaped, whether negative zero
   * prints as zero, and the order it sorts keys in.
   */
  datatype Dialect = Dialect(htmlEscapes: bool, mergesZeros: bool, order: set<string> -> seq<string>)

  ghost predicate Enumerates(order: seq<string>, keys: set<string>) {
    Distinct(order) && forall k :: k in order <==> k in keys
  }

  /** Whatever the order is, it lists each key once. */
  ghost predicate SortsKeys(d: Dialect) {
    forall keys: set<string> :: Enumerates(d.order(keys), keys)
  }

  // ------------------------------------------------------------------ strings

  const HEX := "0123456789abcdef"

  function Hex4(n: nat): (r: string) requires n < 0x1_0000 ensures |r| == 4 {
    [HEX[n / 16 / 16 / 16], HEX[n / 16 / 16 % 16], HEX[n / 16 % 16], HEX[n % 16]]
  }

  predicate IsHtml(c: char) {
    c == '<' || c == '>' || c == '&' || c == '\U{2028}' || c == '\U{2029}'
  }

  function EscapeChar(d: Dialect, c: char): string {
    if c == '\"' then "\\\""
    else if c == '\\' then "\\\\"
    else if c == '\U{08}' then "\\b"
    else if c == '\U{0C}' then "\\f"
    else if c == '\n' then "\\n"
    else if c == '\r' then "\\r"
    else if c == '\t' then "\\t"
    else if c < ' ' || (d.htmlEscapes && IsHtml(c)) then "\\u" + Hex4(c as int)
    else [c]
  }

  function Escape(d: Dialect, s: string): string {
    if s == "" then "" else EscapeChar(d, s[0]) + Escape(d, s[1..])
  }

  function Quote(d: Dialect, s: string): string {
    "\"" + Escape(d, s) + "\""
  }

  // ------------------------------------------------------------------- values

  function NumberText(d: Dialect, text: string): string {
    if d.mergesZeros && text == "-0" then "0" else text
  }

  function Print(d: Dialect, j: Json): string
    decreases j, 1, 0
  {
    match j
    case JNull => "null"
    case JBool(b) => if b then "true" else "false"
    case JNumber(text) => NumberText(d, text)
    case JString(text) => Quote(d, text)
    case JArray(items) => "[" + PrintItems(d, j, 0)
    case JObject(fields) => "{" + PrintFields(d, j, d.order(fields.Keys), 0)
  }

  /** The items from an index on, and the closing bracket. */
  function PrintItems(d: Dialect, j: Json, i: nat): string
    requires j.JArray? && i <= |j.items|
    decreases j, 0, |j.items| - i
  {
    if i == |j.items| then "]"
    else (if i == 0 then "" else ",") + (Print(d, j.items[i]) + PrintItems(d, j, i + 1))
  }

  /** The fields under the keys from an index on, and the closing brace; every key is the object's. */
  function PrintFields(d: Dialect, j: Json, keys: seq<string>, i: nat): string
    requires j.JObject? && i <= |keys|
    decreases j, 0, |keys| - i
  {
    if i == |keys| then "}"
    else
      var value := if keys[i] in j.fields then Print(d, j.fields[keys[i]]) else "";
      (if i == 0 then "" else ",") + (Quote(d, keys[i]) + (":" + (value + PrintFields(d, j, keys, i + 1))))
  }

  // ------------------------------------------------------------------- reader

  function HexValue(c: char): Option<nat> {
    if '0' <= c <= '9' then Some(c as int - '0' as int)
    else if 'a' <= c <= 'f' then Some(c as int - 'a' as int + 10)
    else if 'A' <= c <= 'F' then Some(c as int - 'A' as int + 10)
    else None
  }

  function ReadHex4(s: string): Option<char> {
    if |s| < 4 || HexValue(s[0]).None? || HexValue(s[1]).None? || HexValue(s[2]).None? || HexValue(s[3]).None? then None
    else
      var n := HexValue(s[0]).value * 0x1000 + HexValue(s[1]).value * 0x100 + HexValue(s[2]).value * 0x10 +
        HexValue(s[3]).value;
      if n < 0xD800 || 0xE000 <= n < 0x1_0000 then Some(n as char) else None
  }

  /** One character of a string literal and the text after it; None at the closing quote and on bad escapes. */
  function ReadChar(s: string): (r: Option<(char, string)>)
    ensures r.Some? ==> |r.value.1| < |s|
  {
    if s == "" || s[0] == '\"' || s[0] < ' ' then None
    else if s[0] != '\\' then Some((s[0], s[1..]))
    else if |s| < 2 then None
    else if s[1] == 'u' then
      var c := ReadHex4(s[2..]);
      if c.None? then None else Some((c.value, s[6..]))
    else if s[1] == '\"' || s[1] == '\\' || s[1] == '/' then Some((s[1], s[2..]))
    else if s[1] == 'b' then Some(('\U{08}', s[2..]))
    else if s[1] == 'f' then Some(('\U{0C}', s[2..]))
    else if s[1] == 'n' then Some(('\n', s[2..]))
    else if s[1] == 'r' then Some(('\r', s[2..]))
    else if s[1] == 't' then Some(('\t', s[2..]))
    else None
  }

  /** The characters up to the closing quote, which is consumed. */
  function ReadString(s: string): (r: Option<(string, string)>)
    ensures r.Some? ==> |r.value.1| < |s|
    decreases |s|
  {
    if s == "" then None
    else if s[0] == '\"' then Some(("", s[1..]))
    else
      var c := ReadChar(s);
      if c.None? then None
      else
        var rest := ReadString(c.value.1);
        if rest.None? then None else Some(([c.value.0] + rest.value.0, rest.value.1))
  }

  predicate IsNumberChar(c: char) {
    '0' <= c <= '9' || c == '-' || c == '+' || c == '.' || c == 'e' || c == 'E'
  }

  function NumberLength(s: string): (n: nat)
    ensures n <= |s|
  {
    if s == "" || !IsNumberChar(s[0]) then 0 else 1 + NumberLength(s[1..])
  }

  predicate Starts(s: string, c: char) {
    s != "" && s[0] == c
  }

  function ReadWord(s: string, word: string, value: Json): (r: Option<(Json, string)>)
    ensures word != "" && r.Some? ==> |r.value.1| < |s|
  {
    if word <= s then Some((value, s[|word|..])) else None
  }

  function ReadNumber(s: string): (r: Option<(Json, string)>)
    ensures r.Some? ==> |r.value.1| < |s|
  {
    var n := NumberLength(s);
    if n == 0 then None else Some((JNumber(s[..n]), s[n..]))
  }

  function ReadText(s: string): (r: Option<(Json, string)>)
    ensures r.Some? ==> |r.value.1| < |s|
  {
    var text := ReadString(s);
    if text.None? then None else Some((JString(text.value.0), text.value.1))
  }

  function ReadValue(s: string): (r: Option<(Json, string)>)
    ensures r.Some? ==> |r.value.1| < |s|
    decreases |s|, 0
  {
    if s == "" then None
    else if s[0] == 'n' then ReadWord(s, "null", JNull)
    else if s[0] == 't' then ReadWord(s, "true", JBool(true))
    else if s[0] == 'f' then ReadWord(s, "false", JBool(false))
    else if s[0] == '\"' then ReadText(s[1..])
    else if s[0] == '[' then ReadArray(s[1..])
    else if s[0] == '{' then ReadObject(s[1..])
    else ReadNumber(s)
  }

  function ReadArray(s: string): (r: Option<(Json, string)>)
    ensures r.Some? ==> |r.value.1| < |s|
    decreases |s|, 2
  {
    if Starts(s, ']') then Some((JArray([]), s[1..]))
    else
      var items := ReadItems(s);
      if items.None? then None else Some((JArray(items.value.0), items.value.1))
  }

  /** At least one item, up to the closing bracket. */
  function ReadItems(s: string): (r: Option<(seq<Json>, string)>)
    ensures r.Some? ==> |r.value.1| < |s|
    decreases |s|, 1
  {
    var item := ReadValue(s);
    if item.None? then None
    else
      var rest := item.value.1;
      if Starts(rest, ']') then Some(([item.value.0], rest[1..]))
      else if !Starts(rest, ',') then None
      else
        var more := ReadItems(rest[1..]);
        if more.None? then None else Some(([item.value.0] + more.value.0, more.value.1))
  }

  function ReadObject(s: string): (r: Option<(Json, string)>)
    ensures r.Some? ==> |r.value.1| < |s|
    decreases |s|, 2
  {
    if Starts(s, '}') then Some((JObject(map[]), s[1..]))
    else
      var fields := ReadFields(s);
      if fields.None? then None else Some((JObject(fields.value.0), fields.value.1))
  }

  /** At least one field, up to the closing brace; a repeated key is refused. */
  function ReadFields(s: string): (r: Option<(map<string, Json>, string)>)
    ensures r.Some? ==> |r.value.1| < |s|
    decreases |s|, 1
  {
    if !Starts(s, '\"') then None
    else
      var key := ReadString(s[1..]);
      if key.None? || !Starts(key.value.1, ':') then None
      else
        var value := ReadValue(key.value.1[1..]);
        if value.None? then None
        else
          var rest := value.value.1;
          if Starts(rest, '}') then Some((map[key.value.0 := value.value.0], rest[1..]))
          else if !Starts(rest, ',') then None
          else
            var more := ReadFields(rest[1..]);
            if more.None? || key.value.0 in more.value.0 then None
            else Some((more.value.0[key.value.0 := value.value.0], more.value.1))
  }

  // -------------------------------------------------------------- round trip

  /** Numbers are numeral texts. */
  ghost predicate Proper(j: Json)
    decreases j, 1
  {
    match j
    case JNumber(text) => text != "" && forall i | 0 <= i < |text| :: IsNumberChar(text[i])
    case JArray(items) => forall i | 0 <= i < |items| :: Proper(items[i])
    case JObject(fields) => forall k | k in fields :: Proper(fields[k])
    case _ => true
  }

  /** The value with every negative zero replaced by zero, when the runtime prints them alike. */
  ghost function Merged(d: Dialect, j: Json): (r: Json)
    decreases j, 1
  {
    match j
    case JNumber(text) => JNumber(NumberText(d, text))
    case JArray(items) => JArray(seq(|items|, i requires 0 <= i < |items| => Merged(d, items[i])))
    case JObject(fields) => JObject(map k | k in fields :: Merged(d, fields[k]))
    case _ => j
  }

  lemma HexRoundTrip(n: nat)
    requires n < 0x10
    ensures HexValue(HEX[n]) == Some(n)
  {
  }

  lemma Hex4RoundTrip(n: nat, rest: string)
    requires n < 0xD800
    ensures ReadHex4(Hex4(n) + rest) == Some(n as char)
  {
    hide HexValue;
    var p := n / 16;
    var q := p / 16;
    var a, b, c, e := q / 16, q % 16, p % 16, n % 16;
    HexRoundTrip(a);
    HexRoundTrip(b);
    HexRoundTrip(c);
    HexRoundTrip(e);
    assert q == a * 16 + b && p == q * 16 + c && n == p * 16 + e;
    assert (Hex4(n) + rest)[..4] == [HEX[a], HEX[b], HEX[c], HEX[e]];
  }

  lemma UnicodeEscape(d: Dialect, c: char, rest: string)
    requires |EscapeChar(d, c)| > 1 && EscapeChar(d, c)[1] == 'u'
    ensures ReadChar(EscapeChar(d, c) + rest) == Some((c, rest))
  {
    hide Hex4, ReadHex4, HexValue, ReadChar;
    assert c < ' ' || IsHtml(c);
    Hex4RoundTrip(c as int, rest);
    ReadEscaped(Hex4(c as int), rest, c);
  }

  lemma ReadEscaped(hex: string, rest: string, c: char)
    requires |hex| == 4 && ReadHex4(hex + rest) == Some(c)
    ensures ReadChar("\\u" + hex + rest) == Some((c, rest))
  {
    hide ReadHex4;
    var s := "\\u" + hex + rest;
    assert s[0] == '\\' && s[1] == 'u' && s[2..] == hex + rest && s[6..] == rest;
  }

  lemma CharRoundTrip(d: Dialect, c: char, rest: string)
    ensures ReadChar(EscapeChar(d, c) + rest) == Some((c, rest))
    ensures EscapeChar(d, c) != "" && EscapeChar(d, c)[0] != '\"'
  {
    hide Hex4, ReadHex4, IsHtml;
    var e := EscapeChar(d, c);
    var s := e + rest;
    if |e| == 1 {
      assert s[0] == c && s[1..] == rest;
    } else if e[1] != 'u' {
      assert s[0] == e[0] && s[1] == e[1] && s[2..] == rest;
    } else {
      UnicodeEscape(d, c, rest);
    }
  }

  lemma Associates(a: string, b: string, c: string)
    ensures a + b + c == a + (b + c)
  {
  }

  lemma {:induction false} StringRoundTrip(d: Dialect, text: string, rest: string)
    ensures ReadString(Escape(d, text) + ("\"" + rest)) == Some((text, rest))
  {
    hide EscapeChar, ReadChar;
    var s := Escape(d, text) + ("\"" + rest);
    if text == "" {
      assert s == "\"" + rest && s[1..] == rest;
    } else {
      var first, tail := EscapeChar(d, text[0]), Escape(d, text[1..]) + ("\"" + rest);
      Associates(first, Escape(d, text[1..]), "\"" + rest);
      CharRoundTrip(d, text[0], tail);
      assert s == first + tail && s[0] == first[0];
      StringRoundTrip(d, text[1..], rest);
      assert text == [text[0]] + text[1..];
    }
  }

  lemma {:induction false} NumberRoundTrip(text: string, rest: string)
    requires forall i | 0 <= i < |text| :: IsNumberChar(text[i])
    requires rest != "" ==> !IsNumberChar(rest[0])
    ensures NumberLength(text + rest) == |text|
  {
    if text != "" {
      assert (text + rest)[1..] == text[1..] + rest;
      NumberRoundTrip(text[1..], rest);
    } else {
      assert text + rest == rest;
    }
  }

  /** What may follow a value. */
  ghost predicate Delimited(rest: string) {
    rest != "" ==> !IsNumberChar(rest[0])
  }

  ghost predicate ReadsAs(s: string, j: Json, rest: string) {
    ReadValue(s) == Some((j, rest))
  }

  lemma {:induction false} RoundTrip(d: Dialect, j: Json, rest: string)
    requires SortsKeys(d) && Proper(j) && Delimited(rest)
    ensures ReadsAs(Print(d, j) + rest, Merged(d, j), rest)
    decreases j, 1, 0
  {
    match j
    case JNull => WordRoundTrip("null", JNull, rest);
    case JBool(b) => WordRoundTrip(if b then "true" else "false", j, rest);
    case JNumber(text) => NumberTextRoundTrip(NumberText(d, text), rest);
    case JString(text) => TextRoundTrip(d, text, rest);
    case JArray(items) => ArrayRoundTrip(d, j, rest);
    case JObject(fields) => ObjectRoundTrip(d, j, rest);
  }

  lemma WordRoundTrip(word: string, value: Json, rest: string)
    requires (word == "null" && value == JNull) || (word == "true" && value == JBool(true)) ||
      (word == "false" && value == JBool(false))
    ensures ReadsAs(word + rest, value, rest)
  {
    var s := word + rest;
    assert s[0] == word[0] && s[..|word|] == word && s[|word|..] == rest;
  }

  lemma NumberTextRoundTrip(text: string, rest: string)
    requires Proper(JNumber(text)) && Delimited(rest)
    ensures ReadsAs(text + rest, JNumber(text), rest)
  {
    NumberRoundTrip(text, rest);
    var s := text + rest;
    assert s[0] == text[0] && IsNumberChar(text[0]);
    assert s[..|text|] == text && s[|text|..] == rest;
  }

  lemma TextRoundTrip(d: Dialect, text: string, rest: string)
    ensures ReadsAs(Quote(d, text) + rest, JString(text), rest)
  {
    hide Escape, ReadString;
    Quoted(d, text, rest);
    StringRoundTrip(d, text, rest);
  }

  lemma Quoted(d: Dialect, text: string, rest: string)
    ensures
      var s := Quote(d, text) + rest;
      Starts(s, '\"') && s[1..] == Escape(d, text) + ("\"" + rest)
  {
    hide Escape;
  }

  /** The first character of a value's text tells it apart from an empty list's or object's end. */
  lemma FirstChar(d: Dialect, j: Json, rest: string)
    requires Proper(j)
    ensures var s := Print(d, j) + rest; s != "" && s[0] != ']'
  {
    if j.JNumber? { assert NumberText(d, j.text) != ""; }
    assert Print(d, j) != "" && Print(d, j)[0] != ']';
  }

  lemma ArrayRoundTrip(d: Dialect, j: Json, rest: string)
    requires SortsKeys(d) && Proper(j) && j.JArray? && Delimited(rest)
    ensures ReadsAs(Print(d, j) + rest, Merged(d, j), rest)
    decreases j, 0, |j.items| + 1
  {
    hide ReadItems, ReadArray, Merged, MergedFrom, Proper, SortsKeys;
    var inner := PrintItems(d, j, 0) + rest;
    if j.items == [] {
      EmptyArray(d, j, rest);
    } else {
      ItemsRoundTrip(d, j, 0, rest);
      Associates(Print(d, j.items[0]), PrintItems(d, j, 1), rest);
      ProperItem(j, 0);
      FirstChar(d, j.items[0], PrintItems(d, j, 1) + rest);
      assert inner == Print(d, j.items[0]) + (PrintItems(d, j, 1) + rest);
      FullArray(d, j, inner, rest);
    }
    Bracketed("[", PrintItems(d, j, 0), rest);
  }

  lemma Bracketed(open: string, text: string, rest: string)
    requires |open| == 1
    ensures (open + text + rest)[0] == open[0] && (open + text + rest)[1..] == text + rest
  {
  }

  lemma EmptyArray(d: Dialect, j: Json, rest: string)
    requires j.JArray? && j.items == []
    ensures ReadArray(PrintItems(d, j, 0) + rest) == Some((Merged(d, j), rest))
  {
    hide Print;
    assert Merged(d, j).items == [];
    assert ("]" + rest)[1..] == rest;
  }

  lemma FullArray(d: Dialect, j: Json, inner: string, rest: string)
    requires j.JArray? && ReadItems(inner) == Some((MergedFrom(d, j, 0), rest)) && !Starts(inner, ']')
    ensures ReadArray(inner) == Some((Merged(d, j), rest))
  {
    hide ReadItems;
    assert MergedFrom(d, j, 0) == Merged(d, j).items;
  }

  lemma ProperItem(j: Json, i: nat)
    requires Proper(j) && j.JArray? && i < |j.items|
    ensures Proper(j.items[i])
  {
  }

  ghost function MergedFrom(d: Dialect, j: Json, i: nat): seq<Json>
    requires j.JArray? && i <= |j.items|
  {
    Merged(d, j).items[i..]
  }

  lemma MergedFromNext(d: Dialect, j: Json, i: nat)
    requires j.JArray? && i < |j.items|
    ensures MergedFrom(d, j, i) == [Merged(d, j.items[i])] + MergedFrom(d, j, i + 1)
    ensures MergedFrom(d, j, |j.items|) == []
  {
  }

  lemma {:induction false} ItemsRoundTrip(d: Dialect, j: Json, i: nat, rest: string)
    requires SortsKeys(d) && Proper(j) && j.JArray? && i < |j.items|
    ensures ReadItems(Print(d, j.items[i]) + (PrintItems(d, j, i + 1) + rest)) == Some((MergedFrom(d, j, i), rest))
    decreases j, 0, |j.items| - i
  {
    hide ReadValue, Print, Merged, MergedFrom, Proper, SortsKeys;
    var tail := PrintItems(d, j, i + 1) + rest;
    ProperItem(j, i);
    MergedFromNext(d, j, i);
    if i + 1 == |j.items| {
      assert tail == "]" + rest && tail[1..] == rest;
      RoundTrip(d, j.items[i], tail);
      assert MergedFrom(d, j, i) == [Merged(d, j.items[i])];
    } else {
      var next := Print(d, j.items[i + 1]) + (PrintItems(d, j, i + 2) + rest);
      Associates(Print(d, j.items[i + 1]), PrintItems(d, j, i + 2), rest);
      assert tail == "," + next && tail[1..] == next;
      RoundTrip(d, j.items[i], tail);
      ItemsRoundTrip(d, j, i + 1, rest);
    }
  }

  ghost predicate KeysOf(keys: seq<string>, j: Json) {
    j.JObject? && Distinct(keys) && forall k | k in keys :: k in j.fields
  }

  /** The fields under the keys from an index on. */
  ghost function MergedAt(d: Dialect, j: Json, keys: seq<string>, i: nat): map<string, Json>
    requires KeysOf(keys, j) && i <= |keys|
  {
    map k | k in keys[i..] :: Merged(d, j.fields[k])
  }

  lemma ObjectRoundTrip(d: Dialect, j: Json, rest: string)
    requires SortsKeys(d) && Proper(j) && j.JObject? && Delimited(rest)
    ensures ReadsAs(Print(d, j) + rest, Merged(d, j), rest)
    decreases j, 0, |d.order(j.fields.Keys)| + 1
  {
    hide ReadFields, ReadObject, MergedAt, Merged, Proper;
    var keys := d.order(j.fields.Keys);
    assert Enumerates(keys, j.fields.Keys);
    AllMerged(d, j, keys);
    if keys == [] {
      EmptyObject(d, j, keys, rest);
    } else {
      FieldsRoundTrip(d, j, keys, 0, rest);
      FieldText(d, j, keys, 0, rest);
      assert PrintFields(d, j, keys, 0) + rest == FieldsText(d, j, keys, 0, rest);
      FullObject(d, j, keys, FieldsText(d, j, keys, 0, rest), rest);
    }
    Bracketed("{", PrintFields(d, j, keys, 0), rest);
  }

  lemma EmptyObject(d: Dialect, j: Json, keys: seq<string>, rest: string)
    requires j.JObject? && keys == [] && KeysOf(keys, j)
    ensures ReadObject(PrintFields(d, j, keys, 0) + rest) == Some((JObject(MergedAt(d, j, keys, 0)), rest))
  {
    hide Print;
    assert MergedAt(d, j, keys, 0) == map[];
    assert ("}" + rest)[1..] == rest;
  }

  lemma FullObject(d: Dialect, j: Json, keys: seq<string>, inner: string, rest: string)
    requires KeysOf(keys, j) && Starts(inner, '\"')
    requires ReadFields(inner) == Some((MergedAt(d, j, keys, 0), rest))
    ensures ReadObject(inner) == Some((JObject(MergedAt(d, j, keys, 0)), rest))
  {
    hide ReadFields, MergedAt;
  }

  lemma AllMerged(d: Dialect, j: Json, keys: seq<string>)
    requires j.JObject? && Enumerates(keys, j.fields.Keys)
    ensures Merged(d, j) == JObject(MergedAt(d, j, keys, 0))
  {
    assert keys[0..] == keys;
    assert Merged(d, j).fields == MergedAt(d, j, keys, 0);
  }

  /** The text of the fields from an index on, without the comma before them. */
  ghost function FieldsText(d: Dialect, j: Json, keys: seq<string>, i: nat, rest: string): string
    requires KeysOf(keys, j) && i < |keys|
  {
    Quote(d, keys[i]) + (":" + (Print(d, j.fields[keys[i]]) + (PrintFields(d, j, keys, i + 1) + rest)))
  }

  lemma FieldText(d: Dialect, j: Json, keys: seq<string>, i: nat, rest: string)
    requires KeysOf(keys, j) && i < |keys|
    ensures PrintFields(d, j, keys, i) + rest == (if i == 0 then "" else ",") + FieldsText(d, j, keys, i, rest)
    ensures Starts(FieldsText(d, j, keys, i, rest), '\"')
  {
    hide Print, Escape;
    assert keys[i] in keys;
    var q, v, more := Quote(d, keys[i]), Print(d, j.fields[keys[i]]), PrintFields(d, j, keys, i + 1);
    Associates(v, more, rest);
    Associates(":", v + more, rest);
    Associates(q, ":" + (v + more), rest);
    Associates(if i == 0 then "" else ",", q + (":" + (v + more)), rest);
  }

  lemma MergedAtNext(d: Dialect, j: Json, keys: seq<string>, i: nat)
    requires KeysOf(keys, j) && i < |keys|
    ensures keys[i] in j.fields && keys[i] !in MergedAt(d, j, keys, i + 1)
    ensures MergedAt(d, j, keys, i) == MergedAt(d, j, keys, i + 1)[keys[i] := Merged(d, j.fields[keys[i]])]
    ensures MergedAt(d, j, keys, |keys|) == map[]
  {
    hide Merged;
    assert keys[i] in keys;
    assert keys[i..] == [keys[i]] + keys[i + 1..];
    assert keys[i] !in keys[i + 1..];
  }

  lemma ProperField(j: Json, k: string)
    requires Proper(j) && j.JObject? && k in j.fields
    ensures Proper(j.fields[k])
  {
  }

  lemma {:induction false} FieldsRoundTrip(d: Dialect, j: Json, keys: seq<string>, i: nat, rest: string)
    requires SortsKeys(d) && Proper(j) && KeysOf(keys, j) && i < |keys|
    ensures ReadFields(FieldsText(d, j, keys, i, rest)) == Some((MergedAt(d, j, keys, i), rest))
    decreases j, 0, |keys| - i
  {
    hide ReadValue, ReadString, Print, Merged, MergedAt, Proper, SortsKeys, Quote, Escape;
    MergedAtNext(d, j, keys, i);
    var key := keys[i];
    var value := j.fields[key];
    var tail := PrintFields(d, j, keys, i + 1) + rest;
    var after := ":" + (Print(d, value) + tail);
    Quoted(d, key, after);
    StringRoundTrip(d, key, after);
    assert after[1..] == Print(d, value) + tail;
    ProperField(j, key);
    if i + 1 == |keys| {
      assert tail == "}" + rest && tail[1..] == rest;
      RoundTrip(d, value, tail);
    } else {
      var next := FieldsText(d, j, keys, i + 1, rest);
      FieldText(d, j, keys, i + 1, rest);
      assert tail == "," + next && tail[1..] == next;
      RoundTrip(d, value, tail);
      FieldsRoundTrip(d, j, keys, i + 1, rest);
    }
  }

  // ------------------------------------------------------------ main results

  /** Reading back a printed value gives the value, up to the zeros the runtime prints alike. */
  lemma ReadAfterPrint(d: Dialect, j: Json)
    requires SortsKeys(d) && Proper(j)
    ensures ReadValue(Print(d, j)) == Some((Merged(d, j), ""))
  {
    RoundTrip(d, j, "");
    assert Print(d, j) + "" == Print(d, j);
  }

  lemma {:induction false} MergedPrintsSame(d: Dialect, j: Json)
    requires SortsKeys(d)
    ensures Print(d, Merged(d, j)) == Print(d, j)
    decreases j, 1, 0
  {
    match j
    case JArray(items) =>
      assert |Merged(d, j).items| == |items|;
      MergedItemsPrintSame(d, j, 0);
    case JObject(fields) =>
      assert Merged(d, j).fields.Keys == fields.Keys;
      var keys := d.order(fields.Keys);
      assert Enumerates(keys, fields.Keys);
      MergedFieldsPrintSame(d, j, keys, 0);
    case _ =>
  }

  lemma {:induction false} MergedItemsPrintSame(d: Dialect, j: Json, i: nat)
    requires SortsKeys(d) && j.JArray? && i <= |j.items|
    ensures PrintItems(d, Merged(d, j), i) == PrintItems(d, j, i)
    decreases j, 0, |j.items| - i
  {
    if i < |j.items| {
      MergedPrintsSame(d, j.items[i]);
      MergedItemsPrintSame(d, j, i + 1);
    }
  }

  lemma {:induction false} MergedFieldsPrintSame(d: Dialect, j: Json, keys: seq<string>, i: nat)
    requires SortsKeys(d) && j.JObject? && i <= |keys|
    ensures Merged(d, j).JObject? && PrintFields(d, Merged(d, j), keys, i) == PrintFields(d, j, keys, i)
    decreases j, 0, |keys| - i
  {
    hide Merged, Quote, SortsKeys;
    MergedField(d, j, "");
    if i < |keys| {
      MergedField(d, j, keys[i]);
      if keys[i] in j.fields { MergedPrintsSame(d, j.fields[keys[i]]); }
      MergedFieldsPrintSame(d, j, keys, i + 1);
    }
  }

  lemma MergedField(d: Dialect, j: Json, key: string)
    requires j.JObject?
    ensures Merged(d, j).JObject? && (key in Merged(d, j).fields <==> key in j.fields)
    ensures key in j.fields ==> Merged(d, j).fields[key] == Merged(d, j.fields[key])
  {
  }

  /** Two values have the same canonical text exactly when they are the same value, whatever the key order. */
  lemma CanonicalInjective(d: Dialect, a: Json, b: Json)
    requires SortsKeys(d) && Proper(a) && Proper(b)
    ensures Print(d, a) == Print(d, b) <==> Merged(d, a) == Merged(d, b)
  {
    ReadAfterPrint(d, a);
    ReadAfterPrint(d, b);
    MergedPrintsSame(d, a);
    MergedPrintsSame(d, b);
  }

  ghost predicate NoNegativeZero(j: Json)
    decreases j, 1
  {
    match j
    case JNumber(text) => text != "-0"
    case JArray(items) => forall i | 0 <= i < |items| :: NoNegativeZero(items[i])
    case JObject(fields) => forall k | k in fields :: NoNegativeZero(fields[k])
    case _ => true
  }

  lemma {:induction false} NothingToMerge(d: Dialect, j: Json)
    requires NoNegativeZero(j) || !d.mergesZeros
    ensures Merged(d, j) == j
  {
    match j
    case JArray(items) =>
      forall i | 0 <= i < |items| ensures Merged(d, items[i]) == items[i] { NothingToMerge(d, items[i]); }
      assert Merged(d, j).items == items;
    case JObject(fields) =>
      forall k | k in fields ensures Merged(d, fields[k]) == fields[k] { NothingToMerge(d, fields[k]); }
      assert Merged(d, j).fields == fields;
    case _ =>
  }

  lemma {:induction false} MergedHasNone(d: Dialect, j: Json)
    requires d.mergesZeros
    ensures NoNegativeZero(Merged(d, j)) && (Proper(j) ==> Proper(Merged(d, j)))
  {
    match j
    case JArray(items) =>
      forall i | 0 <= i < |items| ensures NoNegativeZero(Merged(d, items[i])) &&
        (Proper(items[i]) ==> Proper(Merged(d, items[i]))) {
        MergedHasNone(d, items[i]);
      }
    case JObject(fields) =>
      forall k | k in fields ensures NoNegativeZero(Merged(d, fields[k])) &&
        (Proper(fields[k]) ==> Proper(Merged(d, fields[k]))) {
        MergedHasNone(d, fields[k]);
      }
    case _ =>
  }

  /** JSON.stringify: no markup escapes, and negative zero prints as zero. */
  const TS: Dialect := Dialect(false, true, keys => SortedSeq(keys))

  /** json.Marshal: markup escapes, and negative zero keeps its sign. */
  const GO: Dialect := Dialect(true, false, keys => SortedSeq(keys))

  lemma {:induction false} SortedSeqEnumerates(keys: set<string>)
    ensures Enumerates(SortedSeq(keys), keys)
    decreases |keys|
  {
    if keys != {} {
      var x := Least(keys);
      SortedSeqEnumerates(keys - {x});
      assert SortedSeq(keys) == [x] + SortedSeq(keys - {x});
    }
  }

  lemma BothSortKeys()
    ensures SortsKeys(TS) && SortsKeys(GO)
  {
    forall keys: set<string> ensures Enumerates(SortedSeq(keys), keys) { SortedSeqEnumerates(keys); }
  }

  /** How the coordinator compares two values. */
  predicate TsEqual(a: Json, b: Json) {
    Print(TS, a) == Print(TS, b)
  }

  /** EqualJSON on two printed values: read both, print both, compare the bytes. */
  predicate GoEqual(a: Json, b: Json) {
    var x, y := ReadValue(Print(GO, a)), ReadValue(Print(GO, b));
    x.Some? && y.Some? && x.value.1 == "" && y.value.1 == "" && Print(GO, x.value.0) == Print(GO, y.value.0)
  }

  lemma GoEqualIsIdentity(a: Json, b: Json)
    requires Proper(a) && Proper(b)
    ensures GoEqual(a, b) <==> a == b
  {
    BothSortKeys();
    ReadAfterPrint(GO, a);
    ReadAfterPrint(GO, b);
    NothingToMerge(GO, a);
    NothingToMerge(GO, b);
    CanonicalInjective(GO, a, b);
  }

  /** The two runtimes compare alike unless the values differ only in the sign of some zero. */
  lemma EqualitiesAgree(a: Json, b: Json)
    requires Proper(a) && Proper(b)
    ensures (TsEqual(a, b) <==> GoEqual(a, b)) <==> (a == b || Merged(TS, a) != Merged(TS, b))
  {
    BothSortKeys();
    GoEqualIsIdentity(a, b);
    CanonicalInjective(TS, a, b);
  }

  /** A value is compared alike with every value free of negative zero exactly when it is free of it too. */
  lemma AlikeIffNoNegativeZero(a: Json)
    requires Proper(a)
    ensures NoNegativeZero(a) <==> forall b | Proper(b) && NoNegativeZero(b) :: TsEqual(a, b) <==> GoEqual(a, b)
  {
    forall b | Proper(b) && NoNegativeZero(b) && NoNegativeZero(a) ensures TsEqual(a, b) <==> GoEqual(a, b) {
      NothingToMerge(TS, a);
      NothingToMerge(TS, b);
      EqualitiesAgree(a, b);
    }
    if !NoNegativeZero(a) {
      var b := Merged(TS, a);
      MergedHasNone(TS, a);
      NothingToMerge(TS, b);
      EqualitiesAgree(a, b);
      assert !(TsEqual(a, b) <==> GoEqual(a, b));
    }
  }
}
