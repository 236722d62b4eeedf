/**
 * Printed documents: a list of key/value entries rendered as one flat JSON object.
 * The state file and the payload its checksum covers both have this form, so what the
 * parser does with a rendered list, whole or cut short, is stated once, here.
 */
module Document {
  import opened Text
  import opened FlatJson

  /** One field; a bare value is printed without quotes. */
  datatype Entry = Entry(key: string, value: string, bare: bool)

  function ValueText(e: Entry): string {
    if e.bare then e.value else "\"" + e.value + "\""
  }

  function EntryText(e: Entry): string {
    "\"" + e.key + "\":" + ValueText(e)
  }

  function Body(es: seq<Entry>): string {
    if es == [] then ""
    else if |es| == 1 then EntryText(es[0])
    else EntryText(es[0]) + "," + Body(es[1..])
  }

  function Render(es: seq<Entry>): string {
    "{" + Body(es) + "}"
  }

  /** How entries are written one after the other. */
  lemma RenderForms(e: Entry, f: Entry, es: seq<Entry>)
    ensures Render([]) == "{" + "}" && Render([e]) == "{" + EntryText(e) + "}"
    ensures Body([e, f] + es) == EntryText(e) + ("," + Body([f] + es))
    ensures EntryText(e) == "\"" + e.key + "\":" + if e.bare then e.value else "\"" + e.value + "\""
  {
    hide EntryText;
    assert ([e, f] + es)[1..] == [f] + es;
    EntryForm(e);
  }

  lemma EntryForm(e: Entry)
    ensures EntryText(e) == "\"" + e.key + "\":" + if e.bare then e.value else "\"" + e.value + "\""
  {
  }

  /** The map the entries denote: a later entry overrides an earlier one with its key. */
  function Load(es: seq<Entry>, acc: Object): Object {
    if es == [] then acc else Load(es[1..], acc[es[0].key := es[0].value])
  }

  function Keys(es: seq<Entry>): set<string> {
    set e | e in es :: e.key
  }

  /** An unquoted value the parser reads back unchanged. */
  predicate CleanNumber(v: string) {
    && (forall i :: 0 <= i < |v| ==> InBareValue(v[i]))
    && (v != "" ==> !IsWhite(v[0]) && v[0] != ':' && v[0] != '"' && !IsWhite(v[|v| - 1]))
  }

  predicate CleanKey(key: string) {
    forall i :: 0 <= i < |key| ==> key[i] != '"'
  }

  predicate Clean(e: Entry) {
    && CleanKey(e.key)
    && (if e.bare then CleanNumber(e.value) else EscapeClosed(e.value))
  }

  predicate AllClean(es: seq<Entry>) {
    forall i :: 0 <= i < |es| ==> Clean(es[i])
  }

  // ---- Reading one string value ----

  /** A string value scans back exactly when it is escape-closed, whatever follows its quote. */
  lemma {:induction false} StringScan(v: string, rest: string)
    ensures StringSpan(v + "\"" + rest) == |v| <==> EscapeClosed(v)
  {
    var s := v + "\"" + rest;
    if v == "" {
    } else if v[0] == '\\' {
      if |v| == 1 {
        assert s[1] == '"' && |s| > 1;
      } else {
        assert s[2..] == v[2..] + "\"" + rest;
        StringScan(v[2..], rest);
      }
    } else {
      assert s[1..] == v[1..] + "\"" + rest;
      StringScan(v[1..], rest);
    }
  }

  /** Whatever string value the parser reads from text that closes it is escape-closed. */
  lemma {:induction false} ScannedIsClosed(s: string)
    requires StringSpan(s) < |s|
    ensures EscapeClosed(s[..StringSpan(s)])
  {
    var n := StringSpan(s);
    if s[0] == '\\' && |s| > 1 {
      ScannedIsClosed(s[2..]);
      assert s[..n][2..] == s[2..][..n - 2];
    } else if s[0] != '"' {
      ScannedIsClosed(s[1..]);
      assert s[..n][1..] == s[1..][..n - 1];
    }
  }

  /** A text without quotes or backslashes is escape-closed. */
  lemma {:induction false} PlainIsClosed(v: string)
    requires forall i :: 0 <= i < |v| ==> v[i] != '"' && v[i] != '\\'
    ensures EscapeClosed(v)
  {
    if v != "" { PlainIsClosed(v[1..]); }
  }

  // ---- Reading one whole entry ----

  /** What is left after an entry when the text that follows it is `tail`. */
  function AfterEntry(tail: string): string {
    if tail != "" && tail[0] == ',' then tail[1..] else tail
  }

  lemma TrimNothing(v: string)
    requires v != "" ==> !IsWhite(v[0]) && !IsWhite(v[|v| - 1])
    ensures Trim(v) == v
  {
    SpanIs(v, IsWhite, 0);
    assert v[0..] == v;
  }

  /** The value of a clean entry is read back when a comma or brace follows it. */
  lemma ReadCleanValue(e: Entry, tail: string)
    requires Clean(e) && tail != "" && (tail[0] == ',' || tail[0] == '}')
    ensures ReadValue(ValueText(e) + tail) == (e.value, tail)
  {
    var v, s := e.value, ValueText(e) + tail;
    if e.bare {
      SpanIs(s, InBareValue, |v|);
      assert s[..|v|] == v && s[|v|..] == tail;
      TrimNothing(v);
    } else {
      assert s[1..] == v + "\"" + tail;
      StringScan(v, tail);
      assert s[1..][..|v|] == v && s[1..][|v| + 1..] == tail;
    }
  }

  lemma ScanKey(key: string, rest: string)
    requires CleanKey(key) && rest != "" && !IsColonOrBlank(rest[0])
    ensures KeyAndRest("\"" + key + "\":" + rest) == Some((key, rest))
  {
    hide Span;
    var s := "\"" + key + "\":" + rest;
    var t := key + ("\":" + rest);
    assert s[1..] == t;
    SpanIs(t, NotQuote, |key|);
    assert t[..|key|] == key && t[|key| + 1..] == ":" + rest;
    SpanIs(":" + rest, IsColonOrBlank, 1);
    assert (":" + rest)[1..] == rest;
  }

  /** The key of an entry is read, and the parser arrives at `rest`, the text of its value. */
  lemma ReadKey(key: string, rest: string)
    requires CleanKey(key) && rest != "" && !IsColonOrBlank(rest[0])
    ensures NextField("\"" + key + "\":" + rest)
         == Field(key, ReadValue(rest).0, DropComma(ReadValue(rest).1))
  {
    hide Span, KeyAndRest, ReadValue, DropComma;
    var s := "\"" + key + "\":" + rest;
    SpanIs(s, IsWhite, 0);
    assert s[0..] == s;
    ScanKey(key, rest);
  }

  lemma ValueStart(e: Entry, tail: string)
    requires Clean(e) && ValueText(e) + tail != ""
    requires tail != "" ==> tail[0] == ',' || tail[0] == '}'
    ensures !IsColonOrBlank((ValueText(e) + tail)[0])
  {
  }

  lemma ReadCleanEntry(e: Entry, tail: string)
    requires Clean(e) && tail != "" && (tail[0] == ',' || tail[0] == '}')
    ensures NextField(EntryText(e) + tail) == Field(e.key, e.value, AfterEntry(tail))
  {
    hide NextField, ReadValue, ValueText;
    var rest := ValueText(e) + tail;
    ValueStart(e, tail);
    assert EntryText(e) + tail == "\"" + e.key + "\":" + rest;
    ReadKey(e.key, rest);
    ReadCleanValue(e, tail);
    SpanIs(tail, IsBlank, 0);
    assert tail[0..] == tail;
  }

  /** The parser reads a printed string field back exactly when its value is escape-closed. */
  lemma FieldReadsBack(e: Entry, tail: string)
    requires CleanKey(e.key) && !e.bare
    ensures NextField(EntryText(e) + tail).Field?
    ensures NextField(EntryText(e) + tail).key == e.key
    ensures NextField(EntryText(e) + tail).value == e.value <==> EscapeClosed(e.value)
  {
    hide NextField, DropComma, Span, EscapeClosed, StringSpan;
    var rest := ValueText(e) + tail;
    assert EntryText(e) + tail == "\"" + e.key + "\":" + rest;
    ReadKey(e.key, rest);
    assert rest[1..] == e.value + "\"" + tail;
    StringScan(e.value, tail);
    var n := StringSpan(rest[1..]);
    assert ReadValue(rest).0 == rest[1..][..n];
    assert rest[1..][..|e.value|] == e.value;
  }

  lemma {:induction false} ScanPast(p: string, x: string)
    requires EscapeClosed(p)
    ensures StringSpan(p + x) == |p| + StringSpan(x)
  {
    if p == "" {
      assert p + x == x;
    } else if p[0] == '\\' {
      assert (p + x)[2..] == p[2..] + x;
      ScanPast(p[2..], x);
    } else {
      assert (p + x)[1..] == p[1..] + x;
      ScanPast(p[1..], x);
    }
  }

  /** A value that ends in a lone backslash runs on to the quote that opens the next key. */
  lemma BackslashRunsOn(e: Entry, p: string, next: string)
    requires CleanKey(e.key) && !e.bare && e.value == p + "\\" && EscapeClosed(p)
    requires next != "" && !IsBlank(next[0]) && next[0] != ','
    ensures NextField(EntryText(e) + ",\"" + next) == Field(e.key, p + "\\\",", next)
  {
    hide NextField, StringSpan, Span, EscapeClosed, ReadValue, DropComma, CleanKey;
    var x := "\\\",\"" + next;
    var s := p + x;
    var rest := "\"" + s;
    assert EntryText(e) + ",\"" + next == "\"" + e.key + "\":" + rest;
    ReadKey(e.key, rest);
    ScanPast(p, x);
    RunOnSpan(next);
    ReadString(s, |p| + 3);
    assert s[..|p| + 3] == p + "\\\"," && s[|p| + 4..] == next;
    NoCommaToDrop(next);
  }

  lemma ReadString(s: string, n: nat)
    requires StringSpan(s) == n < |s|
    ensures ReadValue("\"" + s) == (s[..n], s[n + 1..])
  {
    hide StringSpan;
    assert ("\"" + s)[1..] == s;
  }

  lemma NoCommaToDrop(s: string)
    requires s != "" && !IsBlank(s[0]) && s[0] != ','
    ensures DropComma(s) == s
  {
    SpanIs(s, IsBlank, 0);
    assert s[0..] == s;
  }

  lemma RunOnSpan(next: string)
    ensures StringSpan("\\\",\"" + next) == 3
  {
    var x := "\\\",\"" + next;
    assert x[0] == '\\' && x[2] == ',' && x[3] == '"';
    assert x[2..][1..] == x[3..];
    assert StringSpan(x[3..]) == 0;
    assert StringSpan(x[2..]) == 1;
  }

  // ---- Reading a whole list ----

  lemma HaltsAt(s: string)
    requires s == "" || (!IsWhite(s[0]) && s[0] != '"')
    ensures NextField(s) == Halt
  {
    SpanIs(s, IsWhite, 0);
    assert s[0..] == s;
  }

  lemma {:induction false} ReadBody(es: seq<Entry>, acc: Object)
    requires AllClean(es)
    ensures ReadFields(Body(es) + "}", acc) == Load(es, acc)
  {
    hide NextField, EntryText, CleanKey, EscapeClosed, CleanNumber;
    if es == [] {
      assert Body(es) + "}" == "}";
      HaltsAt("}");
    } else {
      var tail := if |es| == 1 then "}" else "," + (Body(es[1..]) + "}");
      assert Body(es) + "}" == EntryText(es[0]) + tail;
      ReadCleanEntry(es[0], tail);
      assert AfterEntry(tail) == Body(es[1..]) + "}";
      ReadBody(es[1..], acc[es[0].key := es[0].value]);
    }
  }

  lemma ParsedIsFields(text: string)
    ensures Parsed("{" + text) == ReadFields(text, map[])
  {
    SpanIs("{" + text, NotBrace, 0);
    assert ("{" + text)[1..] == text;
  }

  /** Parsing a rendered list of clean entries gives back the map the list denotes. */
  lemma ParseRender(es: seq<Entry>)
    requires AllClean(es)
    ensures Parsed(Render(es)) == Load(es, map[])
  {
    hide Parsed, Body, ReadFields, Load;
    assert Render(es) == "{" + (Body(es) + "}");
    ParsedIsFields(Body(es) + "}");
    ReadBody(es, map[]);
  }

  lemma {:induction false} BodyAppend(a: seq<Entry>, b: seq<Entry>)
    requires a != [] && b != []
    ensures Body(a + b) == Body(a) + "," + Body(b)
  {
    hide EntryText;
    assert (a + b)[1..] == a[1..] + b;
    if |a| == 1 {
      assert a[1..] + b == b;
    } else {
      BodyAppend(a[1..], b);
    }
  }

  lemma EntryHead(e: Entry, tail: string) returns (next: string)
    requires e.key != ""
    ensures EntryText(e) + tail == "\"" + next && next != "" && next[0] == e.key[0]
  {
    hide ValueText;
    next := e.key + ("\":" + ValueText(e) + tail);
  }

  /** A body and its closing brace begin with the quote of the first key. */
  lemma NextKeyText(es: seq<Entry>) returns (next: string)
    requires es != [] && es[0].key != ""
    ensures Body(es) + "}" == "\"" + next && next != "" && next[0] == es[0].key[0]
  {
    hide EntryText;
    var tail := if |es| == 1 then "}" else "," + Body(es[1..]) + "}";
    assert Body(es) + "}" == EntryText(es[0]) + tail;
    next := EntryHead(es[0], tail);
  }

  // ---- What the parser tolerates ----

  /** Text before the first brace is ignored; without a brace nothing is read. */
  lemma BraceFound(before: string, text: string)
    requires forall i :: 0 <= i < |before| ==> before[i] != '{'
    ensures Parsed(before + "{" + text) == ReadFields(text, map[]) && Parsed(before) == map[]
  {
    hide ReadFields, Span;
    var s := before + "{" + text;
    SpanIs(s, NotBrace, |before|);
    SpanIs(before, NotBrace, |before|);
    assert s[|before| + 1..] == text;
  }

  predicate Blanks(s: string) {
    forall i :: 0 <= i < |s| ==> s[i] == ' ' || s[i] == '\t'
  }

  /** White space, line ends included, is skipped before a field. */
  lemma LeadSkipped(lead: string, rest: string)
    requires forall i :: 0 <= i < |lead| ==> lead[i] == ' ' || lead[i] == '\t' || lead[i] == '\r' || lead[i] == '\n'
    ensures NextField(lead + rest) == NextField(rest)
  {
    hide Span, KeyAndRest, ReadValue, DropComma;
    var n := Span(rest, IsWhite);
    SpanIs(lead + rest, IsWhite, |lead| + n);
    assert (lead + rest)[|lead| + n..] == rest[n..];
  }

  /** Colons and blanks are skipped in any number between a key and its value. */
  lemma GapSkipped(key: string, gap: string, rest: string)
    requires CleanKey(key) && rest != "" && rest[0] != ':' && rest[0] != ' ' && rest[0] != '\t'
    requires forall i :: 0 <= i < |gap| ==> gap[i] == ':' || gap[i] == ' ' || gap[i] == '\t'
    ensures NextField("\"" + key + "\"" + gap + rest)
         == Field(key, ReadValue(rest).0, DropComma(ReadValue(rest).1))
  {
    hide Span, KeyAndRest, ReadValue, DropComma;
    var s := "\"" + key + "\"" + gap + rest;
    SpanIs(s, IsWhite, 0);
    assert s[0..] == s;
    ScanKeyGap(key, gap, rest);
  }

  lemma ScanKeyGap(key: string, gap: string, rest: string)
    requires CleanKey(key) && rest != "" && !IsColonOrBlank(rest[0])
    requires forall i :: 0 <= i < |gap| ==> IsColonOrBlank(gap[i])
    ensures KeyAndRest("\"" + key + "\"" + gap + rest) == Some((key, rest))
  {
    hide Span;
    var s := "\"" + key + "\"" + gap + rest;
    var t := key + ("\"" + (gap + rest));
    assert s[1..] == t;
    SpanIs(t, NotQuote, |key|);
    assert t[..|key|] == key && t[|key| + 1..] == gap + rest;
    SpanIs(gap + rest, IsColonOrBlank, |gap|);
    assert (gap + rest)[|gap|..] == rest;
  }

  /** After a value blanks and one comma are skipped, no line end. */
  lemma CommaSkipped(trail: string, rest: string)
    requires Blanks(trail) && (rest != "" ==> rest[0] != ' ' && rest[0] != '\t')
    ensures DropComma(trail + "," + rest) == rest
    ensures rest == "" || rest[0] != ',' ==> DropComma(trail + rest) == rest
  {
    hide Span;
    var s := trail + "," + rest;
    SpanIs(s, IsBlank, |trail|);
    assert s[|trail|..] == "," + rest;
    SpanIs(trail + rest, IsBlank, |trail|);
    assert (trail + rest)[|trail|..] == rest;
  }

  /** An unquoted value ends at a comma, brace or line end, and blanks around it do not count. */
  lemma BareValueEnds(v: string, trail: string, rest: string)
    requires CleanNumber(v) && v != "" && Blanks(trail)
    requires rest == "" || rest[0] == ',' || rest[0] == '}' || rest[0] == '\n' || rest[0] == '\r'
    ensures ReadValue(v + trail + rest) == (v, rest)
  {
    hide Span;
    var s := v + trail + rest;
    SpanIs(s, InBareValue, |v| + |trail|);
    assert s[..|v| + |trail|] == v + trail && s[|v| + |trail|..] == rest;
    TrimsTrail(v, trail);
    SpanIs(v + trail, IsWhite, 0);
    assert (v + trail)[0..] == v + trail;
  }

  lemma {:induction false} TrimsTrail(v: string, trail: string)
    requires Blanks(trail) && v != "" && !IsWhite(v[|v| - 1])
    ensures TrimRight(v + trail) == v
  {
    var s := v + trail;
    if trail == "" {
      assert s == v;
    } else {
      assert s[..|s| - 1] == v + trail[..|trail| - 1];
      TrimsTrail(v, trail[..|trail| - 1]);
    }
  }

  // ---- Reading a list that was cut short ----

  /** A prefix of an entry yields at most that entry's key. */
  lemma CutEntry(e: Entry, p: string, acc: Object)
    requires Clean(e) && p <= EntryText(e)
    ensures ReadFields(p, acc).Keys <= acc.Keys + {e.key}
  {
    hide NextField;
    if p == "" {
      HaltsAt(p);
    } else if |p| <= |e.key| + 1 {
      CutInKey(e, p);
    } else if |p| <= |e.key| + 3 {
      CutAtColon(e, p);
    } else {
      CutInValue(e, p);
      HaltsAt("");
    }
  }

  lemma CutInValue(e: Entry, p: string)
    requires Clean(e) && p <= EntryText(e) && |p| > |e.key| + 3
    ensures exists v :: NextField(p) == Field(e.key, v, "")
  {
    hide NextField, ReadValue;
    var rest := p[|e.key| + 3..];
    assert EntryText(e)[|e.key| + 3..] == ValueText(e);
    assert p == "\"" + e.key + "\":" + rest;
    assert rest[0] == ValueText(e)[0];
    ReadKey(e.key, rest);
    CutValue(e, rest);
  }

  lemma CutInKey(e: Entry, p: string)
    requires CleanKey(e.key) && p <= EntryText(e) && 0 < |p| <= |e.key| + 1
    ensures NextField(p) == Halt
  {
    SpanIs(p, IsWhite, 0);
    assert p[0..] == p;
    forall i | 0 <= i < |p| - 1 ensures NotQuote(p[1..][i]) { assert p[1 + i] == e.key[i]; }
    SpanIs(p[1..], NotQuote, |p| - 1);
  }

  lemma CutAtColon(e: Entry, p: string)
    requires CleanKey(e.key) && p <= EntryText(e) && |e.key| + 1 < |p| <= |e.key| + 3
    ensures NextField(p) == Halt
  {
    SpanIs(p, IsWhite, 0);
    assert p[0..] == p;
    var colon := if |p| == |e.key| + 2 then "" else ":";
    assert p[1..] == e.key + "\"" + colon;
    SpanIs(p[1..], NotQuote, |e.key|);
    assert p[1..][|e.key| + 1..] == colon;
    SpanIs(colon, IsColonOrBlank, |colon|);
  }

  /** A value cut short takes the rest of the text. */
  lemma CutValue(e: Entry, rest: string)
    requires Clean(e) && rest != "" && rest <= ValueText(e)
    ensures DropComma(ReadValue(rest).1) == ""
  {
    if e.bare {
      SpanIs(rest, InBareValue, |rest|);
    } else if rest == ValueText(e) {
      assert rest[1..] == e.value + "\"" + "";
      StringScan(e.value, "");
      assert rest[1..][|e.value| + 1..] == "";
    } else {
      assert rest[1..] <= e.value;
      CutString(e.value, rest[1..]);
    }
  }

  lemma {:induction false} CutString(v: string, p: string)
    requires EscapeClosed(v) && p <= v
    ensures StringSpan(p) == |p|
  {
    if p == "" {
    } else if p[0] == '\\' && |p| > 1 {
      CutString(v[2..], p[2..]);
    } else if p[0] == '\\' {
      assert p[1..] == "";
    } else {
      CutString(v[1..], p[1..]);
    }
  }

  /** Cutting a list of clean entries anywhere reads no key that the list does not have. */
  lemma {:induction false} CutBody(es: seq<Entry>, p: string, acc: Object)
    requires AllClean(es) && p <= Body(es)
    ensures ReadFields(p, acc).Keys <= acc.Keys + Keys(es)
  {
    hide NextField, EntryText;
    if es == [] {
      HaltsAt(p);
    } else {
      var t := EntryText(es[0]);
      assert es[0].key in Keys(es);
      if |p| <= |t| {
        CutEntry(es[0], p, acc);
      } else {
        var q := p[|t| + 1..];
        assert Body(es)[|t|..] == "," + Body(es[1..]);
        assert p == t + ("," + q);
        assert q <= Body(es[1..]);
        ReadCleanEntry(es[0], "," + q);
        assert AfterEntry("," + q) == q;
        CutBody(es[1..], q, acc[es[0].key := es[0].value]);
        assert Keys(es[1..]) <= Keys(es);
      }
    }
  }

  /** After the clean entries and a comma, the parser goes on with the rest of the text. */
  lemma {:induction false} ReadPrefix(es: seq<Entry>, rest: string, acc: Object)
    requires AllClean(es) && es != []
    ensures ReadFields(Body(es) + "," + rest, acc) == ReadFields(rest, Load(es, acc))
  {
    hide NextField, EntryText;
    var tail := if |es| == 1 then "," + rest else "," + (Body(es[1..]) + "," + rest);
    assert Body(es) + "," + rest == EntryText(es[0]) + tail;
    ReadCleanEntry(es[0], tail);
    assert AfterEntry(tail) == tail[1..];
    if |es| > 1 {
      assert tail[1..] == Body(es[1..]) + "," + rest;
      ReadPrefix(es[1..], rest, acc[es[0].key := es[0].value]);
    } else {
      assert tail[1..] == rest;
      assert Load(es, acc) == Load(es[1..], acc[es[0].key := es[0].value]);
    }
  }

  /** A last string entry cut inside its value yields a prefix of that value. */
  lemma CutLast(e: Entry, p: string, acc: Object) returns (v: string)
    requires Clean(e) && !e.bare && p <= EntryText(e) + "}" && |p| > |e.key| + 3
    ensures v <= e.value && ReadFields(p, acc) == acc[e.key := v]
    ensures v == e.value <==> |p| >= |EntryText(e)| - 1
  {
    hide NextField, ReadValue;
    var rest := p[|e.key| + 3..];
    assert p == "\"" + e.key + "\":" + rest;
    assert (EntryText(e) + "}")[|e.key| + 3..] == "\"" + e.value + "\"}";
    assert rest <= "\"" + e.value + "\"}" && rest[0] == '"';
    ReadKey(e.key, rest);
    v := CutLastValue(e.value, rest);
    var after := DropComma(ReadValue(rest).1);
    HaltsAt(after);
    assert ReadFields(p, acc) == ReadFields(after, acc[e.key := v]);
  }

  lemma CutLastValue(value: string, rest: string) returns (v: string)
    requires EscapeClosed(value) && rest != "" && rest <= "\"" + value + "\"}"
    ensures v <= value && ReadValue(rest).0 == v
    ensures v == value <==> |rest| > |value|
    ensures DropComma(ReadValue(rest).1) == "" || DropComma(ReadValue(rest).1) == "}"
  {
    if |rest| <= |value| + 1 {
      v := rest[1..];
      assert v <= value;
      CutString(value, v);
      assert v[..|v|] == v;
    } else {
      v := value;
      var after := rest[|value| + 2..];
      assert rest[1..] == value + "\"" + after;
      StringScan(value, after);
      assert rest[1..][..|value|] == value && rest[1..][|value| + 1..] == after;
      assert after == "" || after == "}";
      SpanIs(after, IsBlank, 0);
      assert after[0..] == after;
    }
  }
}
