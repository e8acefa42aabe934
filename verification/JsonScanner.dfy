/**
 * Finding the first JSON object in a model's reply: extractFirstJSONObject in adk_gemini_provider.go lines
 * 208-244, against the grammar of objects, arrays and strings in sections 4, 5 and 7 of RFC 8259.
 */
module JsonScanner {
  import opened OrderedStrings
  import opened JsonValues
  import opened JsonCanonical

  /** The three variables of the scan; done is set by the brace that closes the first one. */
  datatype Mode = Mode(inString: bool, escaped: bool, depth: int, done: bool)

  function Outside(depth: int): Mode { Mode(false, false, depth, false) }
  function Inside(depth: int): Mode { Mode(true, false, depth, false) }

  function Step(m: Mode, c: char): Mode {
    if m.escaped then m.(escaped := false)
    else if c == '\\' && m.inString then m.(escaped := true)
    else if c == '\"' then m.(inString := !m.inString)
    else if m.inString then m
    else if c == '{' then m.(depth := m.depth + 1)
    else if c == '}' then m.(depth := m.depth - 1, done := m.depth - 1 == 0)
    else m
  }

  /** How much text there is up to and with the closing brace. */
  function End(m: Mode, s: string): (r: Option<nat>)
    ensures r.Some? ==> 0 < r.value <= |s|
    decreases |s|
  {
    if s == "" then None
    else
      var next := Step(m, s[0]);
      if next.done then Some(1)
      else
        var rest := End(next, s[1..]);
        if rest.None? then None else Some(1 + rest.value)
  }

  /** The mode after a text that the scan passes over. */
  function Passes(m: Mode, s: string): Option<Mode>
    decreases |s|
  {
    if s == "" then Some(m)
    else
      var next := Step(m, s[0]);
      if next.done then None else Passes(next, s[1..])
  }

  predicate IsSpace(c: char) {
    || c == ' ' || '\t' <= c <= '\r' || c == '\U{85}' || c == '\U{A0}' || c == '\U{1680}' ||
          '\U{2000}' <= c <= '\U{200A}'
    || c == '\U{2028}' || c == '\U{2029}' || c == '\U{202F}' || c == '\U{205F}' || c == '\U{3000}'
  }

  function TrimSpace(s: string): string {
    if s == "" then ""
    else if IsSpace(s[0]) then TrimSpace(s[1..])
    else if IsSpace(s[|s| - 1]) then TrimSpace(s[..|s| - 1])
    else s
  }

  function FirstBrace(s: string): (n: nat)
    ensures n <= |s| && (n < |s| ==> s[n] == '{') && forall i | 0 <= i < n :: s[i] != '{'
  {
    if s == "" || s[0] == '{' then 0 else 1 + FirstBrace(s[1..])
  }

  function Extracted(s: string): string {
    var start := FirstBrace(s);
    if start == |s| then ""
    else
      var end := End(Outside(0), s[start..]);
      if end.None? then "" else TrimSpace(s[start..start + end.value])
  }

  method ExtractFirstJSONObject(value: string) returns (r: string)
    ensures r == Extracted(value)
  {
    hide TrimSpace, FirstBrace;
    var start := FirstBrace(value);
    if start == |value| { return ""; }
    var inString, escaped, depth := false, false, 0;
    var index := start;
    ghost var text := value[start..];
    while index < |value|
      invariant start <= index <= |value|
      invariant
        var rest := End(Mode(inString, escaped, depth, false), value[index..]);
        End(Outside(0), text) == if rest.None? then None else Some(index - start + rest.value)
    {
      var character := value[index];
      assert value[index..][1..] == value[index + 1..];
      ghost var m := Mode(inString, escaped, depth, false);
      index := index + 1;
      if escaped {
        escaped := false;
        continue;
      }
      if character == '\\' && inString {
        escaped := true;
        continue;
      }
      if character == '\"' {
        inString := !inString;
        continue;
      }
      if inString { continue; }
      if character == '{' {
        depth := depth + 1;
      } else if character == '}' {
        depth := depth - 1;
        if depth == 0 {
          assert Step(m, character).done;
          return TrimSpace(value[start..index]);
        }
      }
    }
    return "";
  }

  // ------------------------------------------------- what the scan passes over

  lemma {:induction false} PassesConcat(m: Mode, a: string, b: string)
    ensures Passes(m, a + b) == if Passes(m, a).None? then None else Passes(Passes(m, a).value, b)
    decreases |a|
  {
    if a == "" {
      assert a + b == b;
    } else {
      assert (a + b)[1..] == a[1..] + b;
      PassesConcat(Step(m, a[0]), a[1..], b);
    }
  }

  lemma {:induction false} EndAfter(m: Mode, a: string, rest: string)
    requires Passes(m, a).Some?
    ensures
      var end := End(Passes(m, a).value, rest);
      End(m, a + rest) == if end.None? then None else Some(|a| + end.value)
    decreases |a|
  {
    if a == "" {
      assert a + rest == rest;
    } else {
      assert (a + rest)[1..] == a[1..] + rest;
      EndAfter(Step(m, a[0]), a[1..], rest);
    }
  }

  ghost predicate NeutralAt(t: string, depth: int) {
    Passes(Outside(depth), t) == Some(Outside(depth))
  }

  /** Inside an object, the scan comes out of the text as it went in. */
  ghost predicate Neutral(t: string) {
    forall depth | depth >= 1 :: NeutralAt(t, depth)
  }

  lemma NeutralConcat(a: string, b: string)
    requires Neutral(a) && Neutral(b)
    ensures Neutral(a + b)
  {
    forall depth | depth >= 1 ensures NeutralAt(a + b, depth) {
      assert NeutralAt(a, depth) && NeutralAt(b, depth);
      PassesConcat(Outside(depth), a, b);
    }
  }

  predicate IsPlain(c: char) {
    c != '\"' && c != '{' && c != '}'
  }

  lemma {:induction false} PlainIsNeutral(t: string)
    requires forall i | 0 <= i < |t| :: IsPlain(t[i])
    ensures Neutral(t)
  {
    if t != "" {
      PlainIsNeutral(t[1..]);
      forall depth | depth >= 1 ensures NeutralAt(t, depth) {
        assert NeutralAt(t[1..], depth);
        assert Step(Outside(depth), t[0]) == Outside(depth);
      }
    }
  }

  lemma BracedIsNeutral(t: string)
    requires Neutral(t)
    ensures Neutral("{" + t + "}")
  {
    forall depth | depth >= 1 ensures NeutralAt("{" + t + "}", depth) {
      assert NeutralAt(t, depth + 1);
      PassesConcat(Outside(depth + 1), t, "}");
      assert Passes(Outside(depth + 1), "}") == Passes(Outside(depth), "");
      var s := "{" + t + "}";
      assert s[0] == '{' && s[1..] == t + "}";
    }
  }

  /** One character or escape of a string literal. */
  datatype Part = Plain(c: char) | Escaped(c: char)

  predicate ProperPart(p: Part) {
    p.Plain? ==> p.c != '\"' && p.c != '\\'
  }

  function PartText(p: Part): string {
    match p
    case Plain(c) => [c]
    case Escaped(c) => ['\\', c]
  }

  function PartsText(parts: seq<Part>): string {
    if parts == [] then "" else PartText(parts[0]) + PartsText(parts[1..])
  }

  ghost predicate StaysInside(t: string) {
    forall depth :: Passes(Inside(depth), t) == Some(Inside(depth))
  }

  lemma PartStaysInside(p: Part)
    requires ProperPart(p)
    ensures StaysInside(PartText(p))
  {
    forall depth ensures Passes(Inside(depth), PartText(p)) == Some(Inside(depth)) {
      var t := PartText(p);
      if p.Escaped? {
        var escaped := Step(Inside(depth), t[0]);
        assert t[1..] == [p.c] && t[1..][1..] == "";
        assert Step(escaped, p.c) == Inside(depth) && !escaped.done;
        assert Passes(escaped, [p.c]) == Passes(Inside(depth), "");
      } else {
        assert t[1..] == "";
      }
    }
  }

  lemma {:induction false} PartsStayInside(parts: seq<Part>)
    requires forall i | 0 <= i < |parts| :: ProperPart(parts[i])
    ensures StaysInside(PartsText(parts))
  {
    if parts != [] {
      PartStaysInside(parts[0]);
      PartsStayInside(parts[1..]);
      forall depth ensures Passes(Inside(depth), PartsText(parts)) == Some(Inside(depth)) {
        PassesConcat(Inside(depth), PartText(parts[0]), PartsText(parts[1..]));
      }
    }
  }

  lemma QuotedIsNeutral(t: string)
    requires StaysInside(t)
    ensures Neutral("\"" + t + "\"")
  {
    var s := "\"" + t + "\"";
    forall depth | depth >= 1 ensures NeutralAt(s, depth) {
      assert s[0] == '\"' && s[1..] == t + "\"";
      PassesConcat(Inside(depth), t, "\"");
      assert Passes(Inside(depth), "\"") == Passes(Outside(depth), "");
    }
  }

  // ------------------------------------------------------------ JSON texts

  /** A JSON text with its spelling: literals and numbers as they are, strings by their parts, blanks anywhere. */
  datatype Syntax =
    | Word(text: string)
    | Quoted(parts: seq<Part>)
    | Spaced(before: string, inner: Syntax, after: string)
    | List(items: seq<Syntax>)
    | Record(members: seq<Member>)

  datatype Member = Member(key: Syntax, value: Syntax)

  predicate Blank(s: string) {
    forall i | 0 <= i < |s| :: s[i] == ' ' || s[i] == '\t' || s[i] == '\n' || s[i] == '\r'
  }

  predicate WordChar(c: char) {
    'a' <= c <= 'z' || IsNumberChar(c)
  }

  predicate Correct(j: Syntax) {
    match j
    case Word(text) => forall i | 0 <= i < |text| :: WordChar(text[i])
    case Quoted(parts) => forall i | 0 <= i < |parts| :: ProperPart(parts[i])
    case Spaced(before, inner, after) => Blank(before) && Blank(after) && Correct(inner)
    case List(items) => forall i | 0 <= i < |items| :: Correct(items[i])
    case Record(members) => forall i | 0 <= i < |members| :: Correct(members[i].key) && Correct(members[i].value)
  }

  function Render(j: Syntax): string
    decreases j, 1, 0
  {
    match j
    case Word(text) => text
    case Quoted(parts) => "\"" + PartsText(parts) + "\""
    case Spaced(before, inner, after) => before + Render(inner) + after
    case List(items) => "[" + RenderItems(j, 0) + "]"
    case Record(members) => "{" + RenderMembers(j, 0) + "}"
  }

  function RenderItems(j: Syntax, i: nat): string
    requires j.List? && i <= |j.items|
    decreases j, 0, |j.items| - i
  {
    if i == |j.items| then ""
    else (if i == 0 then "" else ",") + Render(j.items[i]) + RenderItems(j, i + 1)
  }

  function RenderMembers(j: Syntax, i: nat): string
    requires j.Record? && i <= |j.members|
    decreases j, 0, |j.members| - i
  {
    if i == |j.members| then ""
    else
      (if i == 0 then "" else ",") + Render(j.members[i].key) + ":" + Render(j.members[i].value)
        + RenderMembers(j, i + 1)
  }

  lemma {:induction false} RenderIsNeutral(j: Syntax)
    requires Correct(j)
    ensures Neutral(Render(j))
    decreases j, 1, 0
  {
    match j
    case Word(text) => PlainIsNeutral(text);
    case Quoted(parts) =>
      PartsStayInside(parts);
      QuotedIsNeutral(PartsText(parts));
    case Spaced(before, inner, after) =>
      PlainIsNeutral(before);
      RenderIsNeutral(inner);
      PlainIsNeutral(after);
      NeutralConcat(before, Render(inner));
      NeutralConcat(before + Render(inner), after);
    case List(items) =>
      ItemsAreNeutral(j, 0);
      PlainIsNeutral("[");
      PlainIsNeutral("]");
      NeutralConcat("[", RenderItems(j, 0));
      NeutralConcat("[" + RenderItems(j, 0), "]");
    case Record(members) =>
      MembersAreNeutral(j, 0);
      BracedIsNeutral(RenderMembers(j, 0));
  }

  lemma {:induction false} ItemsAreNeutral(j: Syntax, i: nat)
    requires Correct(j) && j.List? && i <= |j.items|
    ensures Neutral(RenderItems(j, i))
    decreases j, 0, |j.items| - i
  {
    if i < |j.items| {
      hide Neutral;
      var comma := if i == 0 then "" else ",";
      PlainIsNeutral(comma);
      RenderIsNeutral(j.items[i]);
      ItemsAreNeutral(j, i + 1);
      NeutralConcat(comma, Render(j.items[i]));
      NeutralConcat(comma + Render(j.items[i]), RenderItems(j, i + 1));
    } else {
      PlainIsNeutral("");
    }
  }

  lemma {:induction false} MembersAreNeutral(j: Syntax, i: nat)
    requires Correct(j) && j.Record? && i <= |j.members|
    ensures Neutral(RenderMembers(j, i))
    decreases j, 0, |j.members| - i
  {
    if i < |j.members| {
      hide Neutral;
      var comma := if i == 0 then "" else ",";
      var key, value := Render(j.members[i].key), Render(j.members[i].value);
      PlainIsNeutral(comma);
      PlainIsNeutral(":");
      RenderIsNeutral(j.members[i].key);
      RenderIsNeutral(j.members[i].value);
      MembersAreNeutral(j, i + 1);
      NeutralConcat(comma, key);
      NeutralConcat(comma + key, ":");
      NeutralConcat(comma + key + ":", value);
      NeutralConcat(comma + key + ":" + value, RenderMembers(j, i + 1));
    } else {
      PlainIsNeutral("");
    }
  }

  // ------------------------------------------------------------ main results

  lemma BracedEnds(inner: string, post: string)
    requires Neutral(inner)
    ensures End(Outside(0), "{" + inner + "}" + post) == Some(|inner| + 2)
  {
    hide Neutral;
    var tail := "}" + post;
    assert tail[0] == '}';
    assert End(Outside(1), tail) == Some(1);
    assert Passes(Outside(1), inner) == Some(Outside(1)) by { NeutralInObject(inner); }
    EndAfter(Outside(1), inner, tail);
    var s := "{" + inner + "}" + post;
    assert s[0] == '{' && s[1..] == inner + tail;
    assert Step(Outside(0), '{') == Outside(1);
  }

  lemma NeutralInObject(inner: string)
    requires Neutral(inner)
    ensures Passes(Outside(1), inner) == Some(Outside(1))
  {
    assert NeutralAt(inner, 1);
  }

  lemma BraceAfter(pre: string, rest: string)
    requires rest != "" && rest[0] == '{' && forall i | 0 <= i < |pre| :: pre[i] != '{'
    ensures FirstBrace(pre + rest) == |pre|
  {
    hide *;
    var s := pre + rest;
    assert s[|pre|] == '{';
    assert forall i | 0 <= i < |pre| :: s[i] == pre[i];
  }

  /** The object found is exactly the braced text, whatever stands before the brace and after the text. */
  lemma BracedIsExtracted(pre: string, inner: string, post: string)
    requires Neutral(inner) && forall i | 0 <= i < |pre| :: pre[i] != '{'
    ensures Extracted(pre + ("{" + inner + "}") + post) == "{" + inner + "}"
  {
    hide Neutral, FirstBrace, End, TrimSpace;
    var o := "{" + inner + "}";
    BracedEnds(inner, post);
    BraceAfter(pre, o + post);
    Associates(pre, o, post);
    TrimBraced(o);
  }

  /** For every object written with any spacing and any escapes. */
  lemma ObjectIsExtracted(pre: string, j: Syntax, post: string)
    requires Correct(j) && j.Record? && forall i | 0 <= i < |pre| :: pre[i] != '{'
    ensures Extracted(pre + Render(j) + post) == Render(j)
  {
    MembersAreNeutral(j, 0);
    BracedIsExtracted(pre, RenderMembers(j, 0), post);
  }

  /** No brace opens, or the first that opens is never closed. */
  predicate NoObject(s: string) {
    var start := FirstBrace(s);
    start == |s| || End(Outside(0), s[start..]).None?
  }

  /** Nothing is found exactly when there is no braced text to find. */
  lemma NothingExtracted(s: string)
    ensures Extracted(s) == "" <==> NoObject(s)
  {
    hide *;
    if NoObject(s) { NothingFound(s); } else { SomethingFound(s); }
  }

  lemma NothingFound(s: string)
    requires NoObject(s)
    ensures Extracted(s) == ""
  {
    hide FirstBrace, End, TrimSpace;
  }

  lemma SomethingFound(s: string)
    requires !NoObject(s)
    ensures Extracted(s) != ""
  {
    hide FirstBrace, End, TrimSpace;
    FoundText(s, FirstBrace(s));
  }

  lemma FoundText(s: string, start: nat)
    requires start < |s| && s[start] == '{' && End(Outside(0), s[start..]).Some?
    ensures TrimSpace(s[start..start + End(Outside(0), s[start..]).value]) != ""
  {
    var n := End(Outside(0), s[start..]).value;
    EndsWithBrace(Outside(0), s[start..]);
  }

  lemma TrimBraced(o: string)
    requires o != "" && o[0] == '{' && o[|o| - 1] == '}'
    ensures TrimSpace(o) == o
  {
  }

  lemma {:induction false} EndsWithBrace(m: Mode, s: string)
    requires End(m, s).Some? && !m.done
    ensures s[End(m, s).value - 1] == '}'
    decreases |s|
  {
    if !Step(m, s[0]).done { EndsWithBrace(Step(m, s[0]), s[1..]); }
  }

  // ------------------------------------------- what the runtimes print is found too

  lemma StaysConcat(a: string, b: string)
    requires StaysInside(a) && StaysInside(b)
    ensures StaysInside(a + b)
  {
    forall depth ensures Passes(Inside(depth), a + b) == Some(Inside(depth)) { PassesConcat(Inside(depth), a, b); }
  }

  lemma {:induction false} PlainTextStays(t: string)
    requires forall i | 0 <= i < |t| :: t[i] != '\"' && t[i] != '\\'
    ensures StaysInside(t)
  {
    if t != "" {
      PartStaysInside(Plain(t[0]));
      PlainTextStays(t[1..]);
      StaysConcat([t[0]], t[1..]);
      assert t == [t[0]] + t[1..];
    }
  }

  lemma HexStays(n: nat)
    requires n < 0x1_0000
    ensures StaysInside(Hex4(n))
  {
    forall i | 0 <= i < |HEX| ensures HEX[i] != '\"' && HEX[i] != '\\' {}
    PlainTextStays(Hex4(n));
  }

  lemma EscapeStays(d: Dialect, c: char)
    ensures StaysInside(EscapeChar(d, c))
  {
    var e := EscapeChar(d, c);
    if |e| == 1 {
      PartStaysInside(Plain(c));
    } else {
      PartStaysInside(Escaped(e[1]));
      if |e| == 2 {
        assert e == PartText(Escaped(e[1]));
      } else {
        HexStays(c as int);
        assert e == PartText(Escaped('u')) + Hex4(c as int);
        StaysConcat(PartText(Escaped('u')), Hex4(c as int));
      }
    }
  }

  lemma {:induction false} EscapedTextStays(d: Dialect, text: string)
    ensures StaysInside(Escape(d, text))
  {
    if text != "" {
      EscapeStays(d, text[0]);
      EscapedTextStays(d, text[1..]);
      StaysConcat(EscapeChar(d, text[0]), Escape(d, text[1..]));
    }
  }

  lemma QuoteIsNeutral(d: Dialect, text: string)
    ensures Neutral(Quote(d, text))
  {
    EscapedTextStays(d, text);
    QuotedIsNeutral(Escape(d, text));
  }

  lemma {:induction false} PrintIsNeutral(d: Dialect, j: Json)
    requires SortsKeys(d) && Proper(j)
    ensures Neutral(Print(d, j))
    decreases j, 1, 0
  {
    match j
    case JNull => PlainIsNeutral("null");
    case JBool(b) => PlainIsNeutral(if b then "true" else "false");
    case JNumber(text) => PlainIsNeutral(NumberText(d, text));
    case JString(text) => QuoteIsNeutral(d, text);
    case JArray(items) =>
      PlainIsNeutral("[");
      PrintedItemsAreNeutral(d, j, 0);
      NeutralConcat("[", PrintItems(d, j, 0));
    case JObject(fields) =>
      var keys := d.order(fields.Keys);
      PrintedFields(d, j);
      var inner :| PrintFields(d, j, keys, 0) == inner + "}" && Neutral(inner);
      Associates("{", inner, "}");
      BracedIsNeutral(inner);
  }

  lemma {:induction false} PrintedItemsAreNeutral(d: Dialect, j: Json, i: nat)
    requires SortsKeys(d) && Proper(j) && j.JArray? && i <= |j.items|
    ensures Neutral(PrintItems(d, j, i))
    decreases j, 0, |j.items| - i
  {
    hide Neutral;
    if i == |j.items| {
      PlainIsNeutral("]");
    } else {
      var comma := if i == 0 then "" else ",";
      PlainIsNeutral(comma);
      ProperItem(j, i);
      PrintIsNeutral(d, j.items[i]);
      PrintedItemsAreNeutral(d, j, i + 1);
      NeutralConcat(Print(d, j.items[i]), PrintItems(d, j, i + 1));
      NeutralConcat(comma, Print(d, j.items[i]) + PrintItems(d, j, i + 1));
    }
  }

  lemma PrintedFields(d: Dialect, j: Json)
    requires SortsKeys(d) && Proper(j) && j.JObject?
    ensures exists inner: string :: PrintFields(d, j, d.order(j.fields.Keys), 0) == inner + "}" && Neutral(inner)
    decreases j, 0, |d.order(j.fields.Keys)| + 1
  {
    var keys := d.order(j.fields.Keys);
    assert Enumerates(keys, j.fields.Keys);
    PrintedFieldsFrom(d, j, keys, 0);
  }

  lemma {:induction false} PrintedFieldsFrom(d: Dialect, j: Json, keys: seq<string>, i: nat)
    requires SortsKeys(d) && Proper(j) && KeysOf(keys, j) && i <= |keys|
    ensures exists inner: string :: PrintFields(d, j, keys, i) == inner + "}" && Neutral(inner)
    decreases j, 0, |keys| - i
  {
    hide Neutral, Print, Quote;
    if i == |keys| {
      PlainIsNeutral("");
      assert PrintFields(d, j, keys, i) == "" + "}";
    } else {
      assert keys[i] in keys;
      PrintedFieldsFrom(d, j, keys, i + 1);
      var more: string :| PrintFields(d, j, keys, i + 1) == more + "}" && Neutral(more);
      var comma, key, value := if i == 0 then "" else ",", Quote(d, keys[i]), Print(d, j.fields[keys[i]]);
      PlainIsNeutral(comma);
      QuoteIsNeutral(d, keys[i]);
      PlainIsNeutral(":");
      ProperField(j, keys[i]);
      PrintIsNeutral(d, j.fields[keys[i]]);
      NeutralConcat(value, more);
      NeutralConcat(":", value + more);
      NeutralConcat(key, ":" + (value + more));
      NeutralConcat(comma, key + (":" + (value + more)));
      Associates(value, more, "}");
      Associates(":", value + more, "}");
      Associates(key, ":" + (value + more), "}");
      Associates(comma, key + (":" + (value + more)), "}");
    }
  }

  /** What either runtime prints for an object is found whole, and reads back as the object. */
  lemma PrintedObjectIsExtracted(d: Dialect, pre: string, j: Json, post: string)
    requires SortsKeys(d) && Proper(j) && j.JObject? && forall i | 0 <= i < |pre| :: pre[i] != '{'
    ensures Extracted(pre + Print(d, j) + post) == Print(d, j)
    ensures ReadValue(Extracted(pre + Print(d, j) + post)) == Some((Merged(d, j), ""))
  {
    hide Extracted, ReadValue, Merged, PrintFields, Neutral, Proper, SortsKeys;
    PrintedFields(d, j);
    var inner: string :| PrintFields(d, j, d.order(j.fields.Keys), 0) == inner + "}" && Neutral(inner);
    Associates("{", inner, "}");
    BracedIsExtracted(pre, inner, post);
    ReadAfterPrint(d, j);
  }
}
