/**
 * The part of `JSON.stringify` the conversation endpoint depends on: string
 * quoting (section 25.5.2.3 QuoteJSONString of ECMA-262) and objects whose
 * members are strings or nested objects.
 */
module Json {

  /** A JSON value as produced from the response records: strings and objects. */
  datatype Json = JString(s: string) | JObject(members: seq<Member>)

  /** One `"key": value` member of an object. */
  datatype Member = Member(key: string, value: Json)

  /** No character below U+0020, so in particular no line feed or carriage return. */
  predicate Printable(s: string)
  {
    forall k :: 0 <= k < |s| ==> s[k] as int >= 0x20
  }

  /** Joining printable texts gives printable text. */
  lemma PrintableJoin(a: string, b: string)
    requires Printable(a) && Printable(b)
    ensures Printable(a + b)
  {
    forall k | 0 <= k < |a + b| ensures (a + b)[k] as int >= 0x20 {
      if k >= |a| {
        assert (a + b)[k] == b[k - |a|];
      }
    }
  }

  /** Lower-case hexadecimal digit, as QuoteJSONString's UnicodeEscape writes it. */
  function HexDigit(n: nat): (c: char)
    requires n < 16
    ensures c as int >= 0x30
  {
    if n < 10 then (0x30 + n) as char else (0x61 + n - 10) as char
  }

  /** The JSON text of one character inside a string literal. */
  function EscapeChar(c: char): (r: string)
    ensures Printable(r)
    ensures 1 <= |r| <= 6
    ensures r == [c] <==> (c as int >= 0x20 && c != '"' && c != '\\')
    ensures |r| > 1 <==> r[0] == '\\'
    ensures r != [c] <==> (|r| >= 2 && r[0] == '\\')
    ensures c == '"' ==> r == "\\\""
    ensures c == '\\' ==> r == "\\\\"
    ensures c == '\n' ==> r == "\\n"
  {
    if c == '"' then "\\\""
    else if c == '\\' then "\\\\"
    else if c as int == 0x08 then "\\b"
    else if c == '\t' then "\\t"
    else if c == '\n' then "\\n"
    else if c as int == 0x0C then "\\f"
    else if c == '\r' then "\\r"
    else if c as int < 0x20 then "\\u00" + [HexDigit(c as int / 16), HexDigit(c as int % 16)]
    else [c]
  }

  /** The escaped body of a string literal, one character at a time. */
  function Escape(s: string): (r: string)
    ensures Printable(r)
    ensures |s| <= |r| <= 6 * |s|
  {
    if s == [] then [] else EscapeChar(s[0]) + Escape(s[1..])
  }

  /** A quoted JSON string literal. */
  function Quote(s: string): (r: string)
    ensures Printable(r)
    ensures |r| >= 2 && r[0] == '"' && r[|r| - 1] == '"'
  {
    "\"" + Escape(s) + "\""
  }

  /** Compact `JSON.stringify` output (no indentation, members in order). */
  function Stringify(j: Json): (r: string)
    ensures Printable(r)
    decreases j, 1
  {
    match j
    case JString(s) => Quote(s)
    case JObject(ms) => "{" + StringifyMembers(ms) + "}"
  }

  /** The comma-separated `"key":value` list of an object. */
  function StringifyMembers(ms: seq<Member>): (r: string)
    ensures Printable(r)
    ensures ms == [] <==> r == []
    decreases ms, 0
  {
    if ms == [] then []
    else
      assert ms[0] in ms;
      var key := Quote(ms[0].key) + ":";
      PrintableJoin(Quote(ms[0].key), ":");
      var head := key + Stringify(ms[0].value);
      PrintableJoin(key, Stringify(ms[0].value));
      if |ms| == 1 then head
      else
        PrintableJoin(head, ",");
        PrintableJoin(head + ",", StringifyMembers(ms[1..]));
        head + "," + StringifyMembers(ms[1..])
  }
}
