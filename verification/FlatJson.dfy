/** The flat JSON object parser of the update agent (json_reader.cpp, ParseFlatJson). */
module FlatJson {
  import opened Text

  type Object = map<string, string>

  predicate IsWhite(c: char) { c == ' ' || c == '\t' || c == '\r' || c == '\n' }
  predicate IsColonOrBlank(c: char) { c == ':' || c == ' ' || c == '\t' }
  predicate IsBlank(c: char) { c == ' ' || c == '\t' }
  predicate NotQuote(c: char) { c != '"' }
  predicate NotBrace(c: char) { c != '{' }
  predicate InBareValue(c: char) { c != ',' && c != '}' && c != '\n' && c != '\r' }

  // ---- What the parser computes, on the text that is left to read ----

  /** Length of a string value: skip two characters at a backslash, stop at a bare quote. */
  function StringSpan(s: string): (n: nat)
    ensures n <= |s|
    ensures n < |s| ==> s[n] == '"'
  {
    if s == "" then 0
    else if s[0] == '\\' && |s| > 1 then 2 + StringSpan(s[2..])
    else if s[0] == '"' then 0
    else 1 + StringSpan(s[1..])
  }

  /** The scan of `v` meets no bare quote and ends exactly at the end of `v`. */
  predicate EscapeClosed(v: string) {
    if v == "" then true
    else if v[0] == '\\' then |v| > 1 && EscapeClosed(v[2..])
    else v[0] != '"' && EscapeClosed(v[1..])
  }

  function TrimRight(s: string): (r: string)
    ensures r <= s
    ensures r != "" ==> !IsWhite(r[|r| - 1])
    ensures forall i :: |r| <= i < |s| ==> IsWhite(s[i])
  {
    if s != "" && IsWhite(s[|s| - 1]) then TrimRight(s[..|s| - 1]) else s
  }

  function Trim(s: string): string {
    TrimRight(s[Span(s, IsWhite)..])
  }

  function DropSpan(s: string, p: char -> bool): string {
    s[Span(s, p)..]
  }

  /** A value and the text after it; a string that never closes takes all the text. */
  function ReadValue(s: string): (r: (string, string))
    requires s != ""
    ensures |r.1| <= |s|
  {
    if s[0] == '"' then
      var n := StringSpan(s[1..]);
      (s[1..][..n], if n < |s| - 1 then s[1..][n + 1..] else "")
    else
      var n := Span(s, InBareValue);
      (Trim(s[..n]), s[n..])
  }

  function DropComma(s: string): string {
    var t := DropSpan(s, IsBlank);
    if t != "" && t[0] == ',' then t[1..] else t
  }

  /** The key that starts at a quote, and the text from its value on. */
  function KeyAndRest(t: string): (r: Option<(string, string)>)
    requires t != ""
    ensures r.Some? ==> r.value.1 != "" && |r.value.1| < |t|
  {
    var k := Span(t[1..], NotQuote);
    if k == |t| - 1 then None
    else
      var u := DropSpan(t[1..][k + 1..], IsColonOrBlank);
      if u == "" then None else Some((t[1..][..k], u))
  }

  datatype Step = Halt | Field(key: string, value: string, rest: string)

  /** One turn of the parser's loop. */
  function NextField(s: string): (r: Step)
    ensures r.Field? ==> |r.rest| < |s|
  {
    var t := DropSpan(s, IsWhite);
    if t == "" || t[0] != '"' then Halt
    else
      match KeyAndRest(t)
      case None => Halt
      case Some((key, u)) =>
        var v := ReadValue(u);
        Field(key, v.0, DropComma(v.1))
  }

  function ReadFields(s: string, acc: Object): Object
    decreases |s|
  {
    match NextField(s)
    case Halt => acc
    case Field(k, v, rest) => ReadFields(rest, acc[k := v])
  }

  function Parsed(json: string): Object {
    var b := Span(json, NotBrace);
    if b == |json| then map[] else ReadFields(json[b + 1..], map[])
  }

  // ---- The parser itself: cursors over one text ----

  /** Advances the cursor while the character satisfies `p`. */
  method Skip(json: string, pos: nat, p: char -> bool) returns (end: nat)
    requires pos <= |json|
    ensures pos <= end <= |json|
    ensures end - pos == Span(json[pos..], p)
    ensures json[end..] == DropSpan(json[pos..], p)
  {
    end := pos;
    while end < |json| && p(json[end])
      invariant pos <= end <= |json|
      invariant Span(json[pos..], p) == end - pos + Span(json[end..], p)
    {
      assert json[end..][1..] == json[end + 1..];
      end := end + 1;
    }
    assert json[pos..][end - pos..] == json[end..];
  }

  /** Finds the end of a string value that starts at `pos`. */
  method SkipString(json: string, pos: nat) returns (valEnd: nat)
    requires pos <= |json|
    ensures pos <= valEnd <= |json|
    ensures valEnd - pos == StringSpan(json[pos..])
  {
    valEnd := pos;
    while valEnd < |json|
      invariant pos <= valEnd <= |json|
      invariant StringSpan(json[pos..]) == valEnd - pos + StringSpan(json[valEnd..])
    {
      assert json[valEnd..][1..] == json[valEnd + 1..];
      if json[valEnd] == '\\' && valEnd + 1 < |json| {
        assert json[valEnd..][2..] == json[valEnd + 2..];
        valEnd := valEnd + 2;
        continue;
      }
      if json[valEnd] == '"' { break; }
      valEnd := valEnd + 1;
    }
  }

  /** Reads the value at `pos`; `next` may be one past the end when a string never closes. */
  method ReadValueAt(json: string, pos: nat) returns (value: string, next: nat)
    requires pos < |json|
    ensures pos <= next <= |json| + 1
    ensures value == ReadValue(json[pos..]).0
    ensures (if next <= |json| then json[next..] else "") == ReadValue(json[pos..]).1
  {
    if json[pos] == '"' {
      var valEnd := SkipString(json, pos + 1);
      value := json[pos + 1..valEnd];
      next := valEnd + 1;
      ghost var s := json[pos..];
      assert s[1..] == json[pos + 1..];
      assert value == s[1..][..valEnd - pos - 1];
      if valEnd < |json| {
        assert s[1..][valEnd - pos..] == json[next..];
      }
    } else {
      next := Skip(json, pos, InBareValue);
      assert json[pos..next] == json[pos..][..next - pos];
      value := Trim(json[pos..next]);
    }
  }

  /** The text at a cursor, where a cursor past the end leaves nothing. */
  function RestAt(json: string, pos: nat): string {
    if pos <= |json| then json[pos..] else ""
  }

  /** Reads a quoted key and the colon after it; `pos` ends at the value. */
  method ReadKeyAt(json: string, start: nat) returns (found: bool, key: string, pos: nat)
    requires start < |json| && json[start] == '"'
    ensures found ==> start < pos < |json|
    ensures KeyAndRest(json[start..]) == if found then Some((key, json[pos..])) else None
  {
    hide Span;
    ghost var u := json[start + 1..];
    assert json[start..][1..] == u;
    key, pos, found := "", start + 1, false;
    var keyEnd := Skip(json, pos, NotQuote);
    if keyEnd == |json| { return; }
    key := json[pos..keyEnd];
    assert key == u[..keyEnd - pos];
    assert u[keyEnd - pos + 1..] == json[keyEnd + 1..];
    pos := Skip(json, keyEnd + 1, IsColonOrBlank);
    found := pos < |json|;
  }

  /** Skips blanks and one comma. */
  method SkipComma(json: string, start: nat) returns (pos: nat)
    requires start <= |json| + 1
    ensures start <= pos <= |json| + 1
    ensures RestAt(json, pos) == DropComma(RestAt(json, start))
  {
    pos := start;
    if pos > |json| { return; }
    pos := Skip(json, pos, IsBlank);
    if pos < |json| && json[pos] == ',' {
      assert json[pos..][1..] == json[pos + 1..];
      pos := pos + 1;
    }
  }

  /** One turn of the loop of ParseFlatJson; not `found` where the loop breaks. */
  method ReadFieldAt(json: string, start: nat) returns (found: bool, key: string, value: string, pos: nat)
    requires start < |json|
    ensures found ==> start < pos <= |json| + 1
    ensures NextField(json[start..]) == if found then Field(key, value, RestAt(json, pos)) else Halt
  {
    hide KeyAndRest, ReadValue, DropComma, Span;
    found, key, value := false, "", "";
    pos := Skip(json, start, IsWhite);
    if pos >= |json| || json[pos] == '}' { return; }
    if json[pos] != '"' { return; }
    var at, next;
    found, key, at := ReadKeyAt(json, pos);
    if !found { return; }
    value, next := ReadValueAt(json, at);
    pos := SkipComma(json, next);
  }

  /** ParseFlatJson. Every exit of the loop leaves the fields read so far. */
  method ParseFlatJson(json: string) returns (result: Object)
    ensures result == Parsed(json)
  {
    hide NextField;
    result := map[];
    var brace := Skip(json, 0, NotBrace);
    assert json[0..] == json;
    if brace == |json| { return; }
    var pos := brace + 1;
    EndHalts();
    while pos < |json|
      invariant brace < pos <= |json| + 1
      invariant ReadFields(RestAt(json, pos), result) == Parsed(json)
      decreases |json| + 1 - pos
    {
      var found, key, value, next := ReadFieldAt(json, pos);
      if !found { break; }
      result := result[key := value];
      pos := next;
    }
  }

  lemma EndHalts()
    ensures NextField("") == Halt
  {
  }
}
