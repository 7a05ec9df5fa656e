/** The error-normalisation step of the request layer: every non-2xx response becomes one
    message string (vis-core-fe/src/services/api.js, lines 74-117). */
module ErrorNormalizer {
  import opened Wrappers
  import opened Json
  import opened Http
  import Text

  /** The message `apiRequest` throws when the refresh after a 401 fails. */
  const AuthenticationFailed: string := "Authentication failed"

  /** The TypeError message of the JavaScript engine for reading `key` from `null`. */
  function NullReadMessage(key: string): string
  {
    "Cannot read properties of null (reading '" + key + "')"
  }

  /** The TypeError message for calling `.join` on a `non_field_errors` that is not an array. */
  const JoinNotAFunction: string := "errorData.non_field_errors.join is not a function"

  /** `HTTP error! status: N`. */
  function HttpErrorText(status: int): string
  {
    "HTTP error! status: " + Text.IntToString(status)
  }

  /** `Server error N: statusText`. */
  function ServerErrorText(status: int, statusText: string): string
  {
    "Server error " + Text.IntToString(status) + ": " + statusText
  }

  /** `field: m1, m2`; a value that is not an array counts as a one-element list. */
  function FieldText(field: string, messages: JsonValue): string
  {
    field + ": " + ArrayJoin(if messages.JArr? then messages.items else [messages], ", ")
  }

  function FieldTexts(entries: seq<(string, JsonValue)>): (r: seq<string>)
    ensures |r| == |entries|
    ensures forall i :: 0 <= i < |entries| ==> r[i] == FieldText(entries[i].0, entries[i].1)
  {
    seq(|entries|, i requires 0 <= i < |entries| => FieldText(entries[i].0, entries[i].1))
  }

  /** The message drawn from a parsed error body `errorData`, starting from `current`
      (the message before lines 100-115 run). */
  function FromErrorData(errorData: JsonValue, current: string): string
  {
    if errorData.JNull? then NullReadMessage("detail")
    else if Truthy(Member(errorData, "detail")) then ToJsString(Member(errorData, "detail").value)
    else if Truthy(Member(errorData, "message")) then ToJsString(Member(errorData, "message").value)
    else if Truthy(Member(errorData, "non_field_errors")) then
      var nfe := Member(errorData, "non_field_errors").value;
      if nfe.JArr? then ArrayJoin(nfe.items, ", ") else JoinNotAFunction
    else if (errorData.JObj? || errorData.JArr?) && |OwnEntries(errorData)| > 0 then
      Text.Join(FieldTexts(OwnEntries(errorData)), "; ")
    else current
  }

  /** The message of the one Error thrown for a non-2xx response. */
  function ErrorMessage(status: int, statusText: string, contentType: Option<string>, body: Parse): string
  {
    if !IsJsonContentType(contentType) then ServerErrorText(status, statusText)
    else match body
      case SyntaxError(_) => ServerErrorText(status, statusText)
      case Parsed(errorData) => FromErrorData(errorData, HttpErrorText(status))
  }

  /** The precedence: a truthy `detail`, then `message`, then `non_field_errors` joined with
      ", ", then every field listed, then the status-only default; a body that is not JSON,
      or fails to parse, gives the status line. A JSON `null` body gives the TypeError of
      reading `detail`, and an array body lists its items under their indices. */
  lemma ErrorPrecedence(status: int, statusText: string, contentType: Option<string>, body: Parse)
    ensures var m := ErrorMessage(status, statusText, contentType, body);
      && (!IsJsonContentType(contentType) || body.SyntaxError? ==> m == ServerErrorText(status, statusText))
      && (IsJsonContentType(contentType) && body.Parsed? ==>
            var d := body.value;
            && (Truthy(Member(d, "detail")) ==> m == ToJsString(Member(d, "detail").value))
            && (!Truthy(Member(d, "detail")) && Truthy(Member(d, "message")) ==>
                  m == ToJsString(Member(d, "message").value))
            && (var nfe := Member(d, "non_field_errors");
                !Truthy(Member(d, "detail")) && !Truthy(Member(d, "message")) && Truthy(nfe) ==>
                  m == if nfe.value.JArr? then ArrayJoin(nfe.value.items, ", ") else JoinNotAFunction)
            && (d.JObj? && !Truthy(Member(d, "detail")) && !Truthy(Member(d, "message"))
                && !Truthy(Member(d, "non_field_errors")) ==>
                  m == if d.entries == [] then HttpErrorText(status) else Text.Join(FieldTexts(d.entries), "; "))
            && (d.JNull? ==> m == NullReadMessage("detail"))
            && (d.JArr? ==>
                  m == if d.items == [] then HttpErrorText(status) else Text.Join(FieldTexts(OwnEntries(d)), "; "))
            && (d.JStr? || d.JNum? || d.JBool? ==> m == HttpErrorText(status)))
  {
  }

  /** A part of a joined list occurs in the joined text. */
  lemma {:induction false} JoinHasPart(parts: seq<string>, sep: string, i: nat)
    requires i < |parts|
    ensures exists off :: Text.OccursAt(Text.Join(parts, sep), parts[i], off)
    decreases |parts|
  {
    var joined := Text.Join(parts, sep);
    if |parts| == 1 {
      assert joined[0..|parts[0]|] == parts[0];
      assert Text.OccursAt(joined, parts[i], 0);
    } else if i == 0 {
      assert joined[0..|parts[0]|] == parts[0];
      assert Text.OccursAt(joined, parts[i], 0);
    } else {
      JoinHasPart(parts[1..], sep, i - 1);
      var rest := Text.Join(parts[1..], sep);
      var off :| Text.OccursAt(rest, parts[1..][i - 1], off);
      var head := parts[0] + sep;
      assert joined == head + rest;
      assert joined[|head| + off..|head| + off + |parts[i]|] == rest[off..off + |parts[i]|];
      assert Text.OccursAt(joined, parts[i], |head| + off);
    }
  }

  /** When a JSON object body has no truthy `detail`, `message` or `non_field_errors`, the
      message names every one of its fields as `field: `. */
  lemma {:induction false} EveryFieldNamed(status: int, statusText: string, contentType: Option<string>,
                                           entries: seq<(string, JsonValue)>, i: nat)
    requires IsJsonContentType(contentType)
    requires i < |entries|
    requires !Truthy(Lookup(entries, "detail")) && !Truthy(Lookup(entries, "message"))
    requires !Truthy(Lookup(entries, "non_field_errors"))
    ensures Text.Contains(ErrorMessage(status, statusText, contentType, Parsed(JObj(entries))), entries[i].0 + ": ")
  {
    var parts := FieldTexts(entries);
    var m := ErrorMessage(status, statusText, contentType, Parsed(JObj(entries)));
    assert m == Text.Join(parts, "; ");
    JoinHasPart(parts, "; ", i);
    var off :| Text.OccursAt(m, parts[i], off);
    var key := entries[i].0 + ": ";
    assert parts[i][..|key|] == key;
    assert m[off..off + |key|] == parts[i][..|key|];
    assert Text.OccursAt(m, key, off);
    Text.ContainsIff(m, key);
  }

  /** Worked example: a truthy `detail` is the whole message. */
  lemma DetailExample()
    ensures ErrorMessage(400, "Bad Request", Some("application/json"),
                         Parsed(JObj([("detail", JStr("bad input"))]))) == "bad input"
  {
    assert "application/json" <= "application/json";
  }

  /** Worked example: `non_field_errors` are joined with ", ". */
  lemma NonFieldExample()
    ensures ErrorMessage(400, "Bad Request", Some("application/json"),
                         Parsed(JObj([("non_field_errors", JArr([JStr("a"), JStr("b")]))]))) == "a, b"
  {
    assert "application/json" <= "application/json";
  }

  /** Worked example: field errors become `field: m1, m2` entries joined with "; ". */
  lemma FieldsExample()
    ensures ErrorMessage(400, "Bad Request", Some("application/json"),
                         Parsed(JObj([("field1", JArr([JStr("x")])),
                                      ("field2", JArr([JStr("y"), JStr("z")]))])))
            == "field1: x; field2: y, z"
  {
    assert "application/json" <= "application/json";
    var d := JObj([("field1", JArr([JStr("x")])), ("field2", JArr([JStr("y"), JStr("z")]))]);
    assert Member(d, "detail") == None;
    assert Member(d, "message") == None;
    assert Member(d, "non_field_errors") == None;
    assert FieldText("field1", JArr([JStr("x")])) == "field1: x";
    assert ArrayJoin([JStr("z")], ", ") == "z";
    assert ArrayJoin([JStr("y"), JStr("z")], ", ") == "y, z";
    assert FieldText("field2", JArr([JStr("y"), JStr("z")])) == "field2: y, z";
    assert FieldTexts(d.entries) == ["field1: x", "field2: y, z"];
    assert Text.Join(["field2: y, z"], "; ") == "field2: y, z";
    assert Text.Join(["field1: x", "field2: y, z"], "; ") == "field1: x; field2: y, z";
  }

  /** A `text/html` content type is not JSON. */
  lemma HtmlIsNotJson()
    ensures !IsJsonContentType(Some("text/html"))
  {
    Text.LongerNotContained("text/html", "application/json");
  }

  /** Worked example: an HTML error page, parsed or not, gives the status line. */
  lemma HtmlPageExample(statusText: string, body: Parse)
    ensures ErrorMessage(500, statusText, Some("text/html"), body) == "Server error 500: " + statusText
  {
    HtmlIsNotJson();
    assert Text.NatToString(5) == "5";
    assert Text.NatToString(50) == "50";
  }
}
