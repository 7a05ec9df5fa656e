/** Parsed JSON values as the front end sees them after `response.json()`, and the few
    pieces of JavaScript semantics the request layer applies to them: property reads,
    truthiness, `String(value)` and `Array.prototype.join`. */
module Json {
  import opened Wrappers
  import Text

  /** A parsed JSON value. Numbers are integral. An object lists its own properties in
      the order `Object.entries` yields them, each key once. */
  datatype JsonValue =
    | JNull
    | JBool(b: bool)
    | JNum(n: int)
    | JStr(s: string)
    | JArr(items: seq<JsonValue>)
    | JObj(entries: seq<(string, JsonValue)>)

  /** The outcome of `JSON.parse` / `response.json()`: a value, or a SyntaxError message. */
  datatype Parse = Parsed(value: JsonValue) | SyntaxError(message: string)

  /** `{ success: true }`, the value the request layer returns when there is no body to parse. */
  const SuccessSentinel: JsonValue := JObj([("success", JBool(true))])

  /** The first entry of `entries` with key `key`, or `None` (JavaScript `undefined`). */
  function Lookup(entries: seq<(string, JsonValue)>, key: string): (r: Option<JsonValue>)
    ensures r.Some? <==> exists i :: 0 <= i < |entries| && entries[i].0 == key
    ensures r.Some? ==> exists i :: 0 <= i < |entries| && entries[i] == (key, r.value)
  {
    if |entries| == 0 then None
    else if entries[0].0 == key then Some(entries[0].1)
    else
      var r := Lookup(entries[1..], key);
      assert forall i :: 1 <= i < |entries| ==> entries[i] == entries[1..][i - 1];
      r
  }

  /** `v.key` for a value that is not `null`. Only objects carry the named properties the
      request layer reads; on arrays, strings, numbers and booleans they are `undefined`. */
  function Member(v: JsonValue, key: string): Option<JsonValue>
  {
    if v.JObj? then Lookup(v.entries, key) else None
  }

  /** JavaScript truthiness of a possibly `undefined` value. */
  predicate Truthy(v: Option<JsonValue>)
  {
    match v
    case None => false
    case Some(JNull) => false
    case Some(JBool(b)) => b
    case Some(JNum(n)) => n != 0
    case Some(JStr(s)) => s != ""
    case Some(JArr(_)) => true
    case Some(JObj(_)) => true
  }

  /** `String(v)`: arrays join their elements with ","; every object reads "[object Object]". */
  function ToJsString(v: JsonValue): string
    decreases v
  {
    match v
    case JNull => "null"
    case JBool(b) => if b then "true" else "false"
    case JNum(n) => Text.IntToString(n)
    case JStr(s) => s
    case JArr(items) => ArrayJoin(items, ",")
    case JObj(_) => "[object Object]"
  }

  /** `items.join(sep)`: `null` elements become the empty string. */
  function ArrayJoin(items: seq<JsonValue>, sep: string): string
    decreases items
  {
    if |items| == 0 then ""
    else
      var first := if items[0].JNull? then "" else ToJsString(items[0]);
      if |items| == 1 then first else first + sep + ArrayJoin(items[1..], sep)
  }

  /** What `String(value)` produces when `localStorage.setItem` stores a possibly
      `undefined` value. */
  function StoredText(v: Option<JsonValue>): string
  {
    match v
    case None => "undefined"
    case Some(x) => ToJsString(x)
  }

  /** `Object.entries(v)` for an object or an array (an array's keys are its indices). The
      error normaliser applies it to nothing else; other values give no entries here. */
  function OwnEntries(v: JsonValue): (r: seq<(string, JsonValue)>)
    ensures v.JObj? ==> r == v.entries
    ensures v.JArr? ==> |r| == |v.items| && forall i :: 0 <= i < |r| ==> r[i] == (Text.IntToString(i), v.items[i])
    ensures !v.JObj? && !v.JArr? ==> r == []
  {
    match v
    case JObj(entries) => entries
    case JArr(items) => seq(|items|, i requires 0 <= i < |items| => (Text.IntToString(i), items[i]))
    case _ => []
  }
}
