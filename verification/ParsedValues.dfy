/**
 * What the parser can read from a text at all: which values it produces, and where in a printed
 * document a value that is not escape-closed can come from.
 */
module ParsedValues {
  import opened Text
  import opened FlatJson
  import opened Document

  predicate Suffix(r: string, t: string) {
    |r| <= |t| && t[|t| - |r|..] == r
  }

  lemma SuffixTrans(r: string, s: string, t: string)
    requires Suffix(r, s) && Suffix(s, t)
    ensures Suffix(r, t)
  {
    assert t[|t| - |r|..] == t[|t| - |s|..][|s| - |r|..];
  }

  // ---- Quotes in string values ----

  /** Every quote follows a backslash. */
  predicate QuotesEscaped(v: string) {
    forall i :: 0 <= i < |v| && v[i] == '"' ==> i > 0 && v[i - 1] == '\\'
  }

  lemma {:induction false} ScanEscapes(s: string)
    ensures QuotesEscaped(s[..StringSpan(s)])
  {
    var n := StringSpan(s);
    if s != "" && s[0] == '\\' && |s| > 1 {
      ScanEscapes(s[2..]);
      assert forall i :: 2 <= i < n ==> s[..n][i] == s[2..][..n - 2][i - 2];
    } else if s != "" && s[0] != '"' {
      ScanEscapes(s[1..]);
      assert forall i :: 1 <= i < n ==> s[..n][i] == s[1..][..n - 1][i - 1];
    }
  }

  lemma ClosedEscapes(v: string)
    requires EscapeClosed(v)
    ensures QuotesEscaped(v)
  {
    StringScan(v, "");
    ScanEscapes(v + "\"" + "");
    assert (v + "\"" + "")[..|v|] == v;
  }

  /** A scan that runs to the end of the text has read an escape-closed value, but for a last backslash. */
  lemma {:induction false} UnendedIsClosed(s: string)
    requires StringSpan(s) == |s| && (s != "" ==> s[|s| - 1] != '\\')
    ensures EscapeClosed(s)
  {
    if s == "" {
    } else if s[0] == '\\' && |s| > 1 {
      UnendedIsClosed(s[2..]);
    } else {
      UnendedIsClosed(s[1..]);
    }
  }

  // ---- Reading one value ----

  /** The value was quoted. */
  predicate Quoted(s: string) {
    s != "" && s[0] == '"'
  }

  lemma QuotedValue(s: string)
    requires Quoted(s)
    ensures QuotesEscaped(ReadValue(s).0)
    ensures s[|s| - 1] == '}' ==> EscapeClosed(ReadValue(s).0)
    ensures Suffix(ReadValue(s).1, s)
  {
    hide EscapeClosed, QuotesEscaped;
    var t := s[1..];
    var n := StringSpan(t);
    ScanEscapes(t);
    if n < |t| {
      ScannedIsClosed(t);
      assert t[n + 1..] == s[n + 2..];
    } else if s[|s| - 1] == '}' {
      assert t[..n] == t;
      UnendedIsClosed(t);
    }
  }

  /** A value that may be read without quotes. */
  predicate BareText(v: string) {
    && (forall i :: 0 <= i < |v| ==> InBareValue(v[i]))
    && (v != "" ==> v[0] != '"' && !IsColonOrBlank(v[0]))
  }

  lemma BareValue(s: string)
    requires s != "" && !Quoted(s) && !IsColonOrBlank(s[0])
    ensures ReadValue(s).0 <= s && BareText(ReadValue(s).0)
    ensures Suffix(ReadValue(s).1, s)
  {
    hide Span;
    var n := Span(s, InBareValue);
    SpanIs(s[..n], IsWhite, 0) by { assert n > 0 ==> InBareValue(s[0]); }
    assert s[..n][0..] == s[..n];
  }

  // ---- One turn of the parser ----

  /** The text of a key and a bare value, as one turn of the parser reads them. */
  function Segment(key: string, gap: string, v: string): string {
    "\"" + key + "\"" + gap + v
  }

  predicate IsGap(gap: string) {
    forall i :: 0 <= i < |gap| ==> IsColonOrBlank(gap[i])
  }

  lemma KeyParts(t: string) returns (gap: string)
    requires t != "" && t[0] == '"' && KeyAndRest(t).Some?
    ensures var (key, u) := KeyAndRest(t).value;
            t == Segment(key, gap, u) && IsGap(gap)
            && u != "" && !IsColonOrBlank(u[0]) && CleanKey(key) && Suffix(u, t)
  {
    hide Span;
    var k := Span(t[1..], NotQuote);
    var r := t[1..][k + 1..];
    var g := Span(r, IsColonOrBlank);
    gap := r[..g];
    JoinParts(t, k, g);
  }

  lemma JoinParts(t: string, k: nat, g: nat)
    requires t != "" && t[0] == '"' && k < |t| - 1 && t[1..][k] == '"' && g <= |t| - 2 - k
    ensures var r := t[1..][k + 1..];
            t == Segment(t[1..][..k], r[..g], r[g..]) && Suffix(r[g..], t)
  {
    var r := t[1..][k + 1..];
    assert r == r[..g] + r[g..];
    assert t[1..] == t[1..][..k] + "\"" + r;
    assert t == "\"" + t[1..];
  }

  lemma DropCommaSuffix(s: string)
    ensures Suffix(DropComma(s), s)
  {
  }

  /** What one turn can read: a quoted value, or a bare one standing in the text right after its key. */
  lemma TurnReads(t: string) returns (quoted: bool, pre: string, gap: string, post: string)
    requires NextField(t).Field?
    ensures Suffix(NextField(t).rest, t)
    ensures quoted ==> QuotesEscaped(NextField(t).value)
    ensures quoted && t[|t| - 1] == '}' ==> EscapeClosed(NextField(t).value)
    ensures !quoted ==> BareText(NextField(t).value) && CleanKey(NextField(t).key) && IsGap(gap)
    ensures !quoted ==> t == pre + Segment(NextField(t).key, gap, NextField(t).value) + post
  {
    hide Span, ReadValue, DropComma, KeyAndRest, EscapeClosed, QuotesEscaped, BareText, CleanKey, IsGap, Segment;
    var n := Span(t, IsWhite);
    var u := t[n..];
    gap := KeyParts(u);
    var (key, x) := KeyAndRest(u).value;
    var v := ReadValue(x);
    quoted, pre, post := Quoted(x), t[..n], "";
    if quoted {
      QuotedValue(x);
    } else {
      BareValue(x);
      post := x[|v.0|..];
      assert x[..|v.0|] == v.0;
      SplitSegment(t, n, key, gap, x, |v.0|);
    }
    RestIsSuffix(v.1, x, u, t);
  }

  lemma SplitSegment(t: string, n: nat, key: string, gap: string, x: string, k: nat)
    requires n <= |t| && t[n..] == Segment(key, gap, x) && k <= |x|
    ensures t == t[..n] + Segment(key, gap, x[..k]) + x[k..]
  {
    assert x == x[..k] + x[k..];
    assert Segment(key, gap, x) == Segment(key, gap, x[..k]) + x[k..];
    assert t == t[..n] + t[n..];
  }

  lemma RestIsSuffix(v: string, x: string, u: string, t: string)
    requires Suffix(v, x) && Suffix(x, u) && Suffix(u, t)
    ensures Suffix(DropComma(v), t)
  {
    hide DropComma;
    DropCommaSuffix(v);
    SuffixTrans(DropComma(v), v, x);
    SuffixTrans(DropComma(v), x, u);
    SuffixTrans(DropComma(v), u, t);
  }

  // ---- No value contains a comma and a quote in a row ----

  /** The value does not contain the text that separates two printed entries. */
  predicate Inseparable(v: string) {
    forall i :: 0 < i < |v| && v[i] == '"' ==> v[i - 1] != ','
  }

  lemma {:induction false} ReadInseparable(t: string, acc: Object)
    requires forall k :: k in acc ==> Inseparable(acc[k])
    ensures forall k :: k in ReadFields(t, acc) ==> Inseparable(ReadFields(t, acc)[k])
    decreases |t|
  {
    hide NextField;
    match NextField(t)
    case Halt =>
    case Field(k, v, rest) =>
      var quoted, pre, gap, post := TurnReads(t);
      assert Inseparable(v);
      ReadInseparable(rest, acc[k := v]);
  }

  /** Whatever the text, no value the parser reads contains a comma followed by a quote. */
  lemma ValuesInseparable(text: string)
    ensures forall k :: k in Parsed(text) ==> Inseparable(Parsed(text)[k])
  {
    hide ReadFields, Span, Inseparable;
    var b := Span(text, NotBrace);
    if b < |text| { ReadInseparable(text[b + 1..], map[]); }
  }

  // ---- Where a bare value stands in a printed document ----

  /** Names with none of the characters that structure a document. */
  predicate Ordinary(key: string) {
    key != "" && forall i :: 0 <= i < |key| ==> key[i] !in {'"', ',', '}', '\\', ':'}
  }

  predicate Unbroken(w: string) {
    forall i :: 0 <= i < |w| ==> w[i] != ',' && w[i] != '}'
  }

  /** A stretch of a printed list without comma or brace lies inside one of its entries. */
  lemma {:induction false} InOneEntry(es: seq<Entry>, pre: string, w: string, post: string)
    returns (e: Entry, pre': string, post': string)
    requires w != "" && Unbroken(w) && Body(es) + "}" == pre + w + post
    ensures e in es && EntryText(e) == pre' + w + post'
  {
    hide EntryText;
    var all := pre + w + post;
    assert forall i :: |pre| <= i < |pre| + |w| ==> all[i] == w[i - |pre|];
    assert all[|pre|] == w[0] && (es == [] ==> all == "}");
    if es == [] { assert false; }
    var t := EntryText(es[0]);
    var sep := if |es| == 1 then "}" else ",";
    var more := if |es| == 1 then "" else Body(es[1..]) + "}";
    assert all == t + sep + more && all[|t|] == sep[0];
    if |pre| + |w| <= |t| {
      e, pre', post' := es[0], pre, t[|pre| + |w|..];
      assert t == all[..|t|];
      assert t[..|pre| + |w|] == pre + w;
    } else if |pre| <= |t| {
      assert false;
    } else {
      assert |es| > 1 by { assert |all| == |t| + 1 + |more| && w != ""; }
      assert pre[..|t| + 1] == all[..|t| + 1] == t + sep;
      assert more == all[|t| + 1..] == pre[|t| + 1..] + w + post;
      e, pre', post' := InOneEntry(es[1..], pre[|t| + 1..], w, post);
    }
  }

  // ---- Inside one entry ----

  /** The characters of a segment that stands somewhere in a text. */
  lemma SegmentChars(t: string, pre: string, key: string, gap: string, v: string, post: string)
    requires key != "" && t == pre + Segment(key, gap, v) + post
    ensures var i, n := |pre|, |pre| + |key| + 2;
            && |t| == n + |gap| + |v| + |post|
            && t[i] == '"' && t[i + 1] == key[0] && t[n - 2] == key[|key| - 1] && t[n - 1] == '"'
            && t[n..n + |gap|] == gap && t[n + |gap|..n + |gap| + |v|] == v
  {
    var n := |pre| + |key| + 2;
    assert t == (pre + "\"" + key + "\"") + gap + (v + post);
    assert t == (pre + "\"" + key + "\"" + gap) + v + post;
  }

  lemma KeyChars(e: Entry)
    requires CleanKey(e.key)
    ensures var t, k := EntryText(e), |e.key|;
            && |t| == k + 3 + |ValueText(e)| && t[k + 3..] == ValueText(e)
            && t[k + 1] == '"' && t[k + 2] == ':'
            && (forall i :: 0 < i <= k ==> t[i] != '"')
  {
    hide ValueText;
    var t := EntryText(e);
    assert forall i :: 0 < i <= |e.key| ==> t[i] == e.key[i - 1];
  }

  /** The colon that follows a key is a gap, and no quote follows it. */
  lemma GapFirst(t: string, n: nat, gap: string, v: string)
    requires IsGap(gap) && v != "" && BareText(v) && n + |gap| + |v| <= |t|
    requires t[n..n + |gap|] == gap && t[n + |gap|..n + |gap| + |v|] == v && t[n] == ':'
    ensures |gap| >= 1 && n + 1 < |t| && t[n + 1] != '"'
  {
    var m := n + |gap|;
    assert t[m..m + |v|][0] == t[m] == v[0];
    if |gap| > 1 { assert t[n..m][1] == t[n + 1] == gap[1]; }
  }

  /** A segment at the start of an entry names its key, and has the entry's colon in its gap. */
  lemma AtStart(e: Entry, key: string, gap: string, v: string, post: string)
    requires CleanKey(e.key) && CleanKey(key) && key != "" && IsGap(gap) && v != "" && BareText(v)
    requires EntryText(e) == "" + Segment(key, gap, v) + post
    ensures |key| == |e.key| && |gap| >= 1
    ensures ValueText(e) != "" ==> ValueText(e)[0] != '"'
  {
    hide ValueText, EntryText, Segment, IsGap, BareText;
    var t := EntryText(e);
    KeyChars(e);
    SegmentChars(t, "", key, gap, v, post);
    SegmentKey(t, key, gap, v, post);
    GapFirst(t, |key| + 2, gap, v);
    assert ValueText(e) != "" ==> ValueText(e)[0] == t[|e.key| + 3..][0] == t[|e.key| + 3];
  }

  lemma SegmentKey(t: string, key: string, gap: string, v: string, post: string)
    requires CleanKey(key) && t == "" + Segment(key, gap, v) + post
    ensures |t| > |key| + 1 && t[|key| + 1] == '"' && forall i :: 0 < i <= |key| ==> t[i] != '"'
  {
    assert t == "\"" + key + ("\"" + gap + v + post);
    assert forall i :: 0 < i <= |key| ==> t[i] == key[i - 1];
  }

  /** A key and bare value inside a string entry stand in its value, which is longer and not closed. */
  lemma InStringEntry(e: Entry, pre: string, key: string, gap: string, v: string, post: string)
    requires CleanKey(e.key) && !e.bare && Ordinary(key) && IsGap(gap) && v != "" && BareText(v)
    requires EntryText(e) == pre + Segment(key, gap, v) + post
    ensures |v| < |e.value| && !EscapeClosed(e.value)
  {
    hide EscapeClosed, BareText, IsGap, EntryText, Segment;
    KeyChars(e);
    SegmentChars(EntryText(e), pre, key, gap, v, post);
    if pre == "" {
      AtStart(e, key, gap, v, post);
      assert false;
    }
    InValue(e, |pre|, key);
    if EscapeClosed(e.value) { ClosedEscapes(e.value); }
  }

  /** A quoted ordinary key that does not start an entry stands in its string value. */
  lemma InValue(e: Entry, i: nat, key: string)
    requires CleanKey(e.key) && !e.bare && Ordinary(key) && i > 0 && i + |key| + 1 < |EntryText(e)|
    requires EntryText(e)[i] == '"' && EntryText(e)[i + 1] == key[0]
    requires EntryText(e)[i + |key|] == key[|key| - 1] && EntryText(e)[i + |key| + 1] == '"'
    ensures i >= |e.key| + 3
    ensures var p := i + |key| - |e.key| - 3;
            p > 0 && (p < |e.value| ==> e.value[p] == '"' && e.value[p - 1] == key[|key| - 1] != '\\')
  {
    hide EntryText;
    KeyChars(e);
    var t, k := EntryText(e), |e.key|;
    assert forall j :: k + 4 <= j < |t| - 1 ==> t[j] == t[k + 3..][j - k - 3] == e.value[j - k - 4];
  }

  predicate PlainNumber(v: string) {
    forall i :: 0 <= i < |v| ==> IsDigit(v[i]) || v[i] == '-'
  }

  /** Inside a number entry a bare value is part of the number. */
  lemma InNumberEntry(e: Entry, pre: string, key: string, gap: string, v: string, post: string)
    requires CleanKey(e.key) && e.bare && PlainNumber(e.value)
    requires Ordinary(key) && IsGap(gap) && v != "" && BareText(v)
    requires EntryText(e) == pre + Segment(key, gap, v) + post
    ensures EscapeClosed(v)
  {
    hide EscapeClosed, BareText, EntryText, Segment, IsGap, Ordinary, CleanKey, ValueText;
    var t, k, n := EntryText(e), |e.key| + 3, |key| + 2 + |gap|;
    OrdinaryKey(key);
    SegmentChars(t, pre, key, gap, v, post);
    NumberAtStart(e, |pre|, key);
    AtStart(e, key, gap, v, post);
    KeyChars(e);
    assert t[k..] == e.value by { ValueOfNumber(e); }
    PlainPart(e.value, t, k, n, v);
    PlainIsClosed(v);
  }

  lemma OrdinaryKey(key: string)
    requires Ordinary(key)
    ensures CleanKey(key) && key != "" && key[0] != ':'
  {
  }

  lemma ValueOfNumber(e: Entry)
    requires e.bare
    ensures ValueText(e) == e.value
  {
  }

  /** A quoted ordinary key in a number entry is the entry's key. */
  lemma NumberAtStart(e: Entry, i: nat, key: string)
    requires CleanKey(e.key) && e.bare && PlainNumber(e.value) && Ordinary(key) && i + |key| + 1 < |EntryText(e)|
    requires EntryText(e)[i] == '"' && EntryText(e)[i + 1] == key[0] && EntryText(e)[i + |key| + 1] == '"'
    ensures i == 0
  {
    hide EntryText;
    KeyChars(e);
    QuotesOfNumber(e);
  }

  lemma QuotesOfNumber(e: Entry)
    requires CleanKey(e.key) && e.bare && PlainNumber(e.value)
    ensures forall j :: 0 <= j < |EntryText(e)| && EntryText(e)[j] == '"' ==> j == 0 || j == |e.key| + 1
  {
    hide EntryText;
    KeyChars(e);
    var t, k := EntryText(e), |e.key|;
    assert forall j :: k + 3 <= j < |t| ==> t[j] == t[k + 3..][j - k - 3];
  }

  lemma PlainPart(number: string, t: string, k: nat, n: nat, v: string)
    requires PlainNumber(number) && k <= n && n + |v| <= |t| && number == t[k..] && v == t[n..n + |v|]
    ensures PlainNumber(v)
  {
    assert forall j :: 0 <= j < |v| ==> v[j] == t[n + j] == number[n + j - k];
  }

  // ---- Values of a printed list ----

  /** Keys without quotes, and plain numbers where a value is not quoted; any text where it is. */
  predicate Printable(es: seq<Entry>) {
    forall e :: e in es ==> CleanKey(e.key) && (e.bare ==> PlainNumber(e.value))
  }

  predicate Open(e: Entry) {
    !e.bare && !EscapeClosed(e.value)
  }

  /** Some string value of the list is not closed and longer than `n`. */
  predicate LongerOpen(es: seq<Entry>, n: nat) {
    exists e :: e in es && Open(e) && |e.value| > n
  }

  /** A value read under an ordinary key is closed, or part of a longer value that is not. */
  lemma TurnFrom(es: seq<Entry>, t: string)
    requires Printable(es) && Suffix(t, Body(es) + "}") && NextField(t).Field? && Ordinary(NextField(t).key)
    ensures EscapeClosed(NextField(t).value) || LongerOpen(es, |NextField(t).value|)
  {
    hide NextField, EscapeClosed, Segment, EntryText, Body, IsGap, BareText;
    var key, v := NextField(t).key, NextField(t).value;
    var quoted, pre, gap, post := TurnReads(t);
    var all := Body(es) + "}";
    if quoted {
      assert t[|t| - 1] == all[|all| - 1] by { TurnText(t); }
    } else if v == "" {
      PlainIsClosed(v);
    } else {
      var before := all[..|all| - |t|];
      assert all == (before + pre) + Segment(key, gap, v) + post;
      SegmentUnbroken(key, gap, v);
      var e, pre', post' := InOneEntry(es, before + pre, Segment(key, gap, v), post);
      if e.bare {
        InNumberEntry(e, pre', key, gap, v, post');
      } else {
        InStringEntry(e, pre', key, gap, v, post');
        assert Open(e);
      }
    }
  }

  lemma TurnText(t: string)
    requires NextField(t).Field?
    ensures t != ""
  {
  }

  lemma SegmentUnbroken(key: string, gap: string, v: string)
    requires Ordinary(key) && IsGap(gap) && BareText(v)
    ensures Unbroken(Segment(key, gap, v)) && Segment(key, gap, v) != ""
  {
  }

  lemma {:induction false} FieldsFrom(es: seq<Entry>, t: string, acc: Object)
    requires Printable(es) && Suffix(t, Body(es) + "}")
    requires forall k :: k in acc && Ordinary(k) ==> EscapeClosed(acc[k]) || LongerOpen(es, |acc[k]|)
    ensures var m := ReadFields(t, acc);
            forall k :: k in m && Ordinary(k) ==> EscapeClosed(m[k]) || LongerOpen(es, |m[k]|)
    decreases |t|
  {
    hide NextField, EscapeClosed, LongerOpen, Printable, Body, Ordinary;
    match NextField(t)
    case Halt =>
    case Field(k, v, rest) =>
      if Ordinary(k) { TurnFrom(es, t); }
      var quoted, pre, gap, post := TurnReads(t);
      SuffixTrans(rest, t, Body(es) + "}");
      FieldsFrom(es, rest, acc[k := v]);
  }

  /** The value of every open entry can be found in the map under an ordinary key. */
  ghost predicate OpenFound(es: seq<Entry>, m: Object) {
    forall e :: e in es && Open(e) ==> exists k :: k in m && Ordinary(k) && m[k] == e.value
  }

  lemma {:induction false} ValueFits(es: seq<Entry>, e: Entry)
    requires e in es
    ensures |e.value| <= |Body(es)|
  {
    if e != es[0] { ValueFits(es[1..], e); }
  }

  /** An open value is found only in a longer one, which is open too: there is no longest. */
  lemma {:induction false} NoneOpen(es: seq<Entry>, e: Entry)
    requires Printable(es) && OpenFound(es, Parsed(Render(es)))
    requires e in es && Open(e)
    ensures false
    decreases |Body(es)| - |e.value|
  {
    hide Parsed, Open, EscapeClosed, Body, Ordinary, ReadFields;
    var m := Parsed(Render(es));
    var text := Body(es) + "}";
    assert Render(es) == "{" + text;
    ParsedIsFields(text);
    assert text[|text| - |text|..] == text;
    FieldsFrom(es, text, map[]);
    var k :| k in m && Ordinary(k) && m[k] == e.value;
    assert !EscapeClosed(m[k]) by { assert Open(e); OpenMeans(e); }
    var longer :| longer in es && Open(longer) && |longer.value| > |m[k]|;
    ValueFits(es, longer);
    NoneOpen(es, longer);
  }

  lemma OpenMeans(e: Entry)
    requires Open(e)
    ensures !e.bare && !EscapeClosed(e.value)
  {
  }

  /** If every open value of a printed list is found in what is read, none is open. */
  lemma AllFoundAllClosed(es: seq<Entry>)
    requires Printable(es) && OpenFound(es, Parsed(Render(es)))
    ensures forall e :: e in es && !e.bare ==> EscapeClosed(e.value)
  {
    hide Printable, OpenFound, EscapeClosed;
    forall e | e in es && !e.bare ensures EscapeClosed(e.value) {
      if Open(e) { NoneOpen(es, e); }
    }
  }

  // ---- A rendered list of inseparable values is uniquely readable ----

  /** Each key begins with a letter and has no quote, and no value contains the separator. */
  predicate Separable(e: Entry) {
    && CleanKey(e.key) && e.key != "" && e.key[0] != ',' && e.key[0] != '}' && e.key[0] != '"'
    && Inseparable(e.value)
  }

  predicate Structural(c: char) {
    c == ',' || c == '}' || c == '"'
  }

  /** What can follow a printed entry: the closing brace, or a comma and the next key. */
  predicate IsTail(tail: string) {
    tail == "}" || (|tail| > 2 && tail[0] == ',' && tail[1] == '"' && !Structural(tail[2]))
  }

  /** Values in front of tails are determined by the text; `close` is the closing quote, if any. */
  lemma ValueUnique(v: string, u: string, close: string, x: string, y: string)
    requires Inseparable(u) && IsTail(x) && IsTail(y) && (close == "" || close == "\"")
    requires |v| <= |u| && v + close + x == u + close + y
    ensures v == u && x == y
  {
    var all, k := v + close + x, |v|;
    assert all == u + close + y;
    assert all[..k] == v && all[..|u|] == u;
    assert forall i :: 0 <= i < |u| ==> all[i] == u[i];
    assert all[k + |close|..] == x && all[|u| + |close|..] == y;
    assert forall i :: 0 <= i < |x| ==> all[k + |close| + i] == x[i];
    assert all[|u| + |close|] == y[0];
    assert close != "" ==> all[k] == '"' && all[|u|] == '"';
    if |u| > k { assert false; }
  }

  function TailOf(es: seq<Entry>): string
    requires es != []
  {
    if |es| == 1 then "}" else "," + (Body(es[1..]) + "}")
  }

  lemma TextAndTail(es: seq<Entry>)
    requires es != [] && forall e :: e in es ==> Separable(e)
    ensures Body(es) + "}" == EntryText(es[0]) + TailOf(es) && IsTail(TailOf(es))
  {
    hide EntryText, CleanKey, Inseparable, IsTail, Body;
    FirstAndTail(es);
    if |es| == 1 {
      ShortTail();
    } else {
      assert es[1] in es;
      var next := NextKeyText(es[1..]);
      LongTail(next) by { assert Separable(es[1]); }
    }
  }

  lemma FirstAndTail(es: seq<Entry>)
    requires es != []
    ensures Body(es) + "}" == EntryText(es[0]) + TailOf(es)
  {
    hide EntryText;
    if |es| > 1 {
      Regroup(EntryText(es[0]), Body(es[1..]));
    }
  }

  lemma Regroup(a: string, b: string)
    ensures ((a + ",") + b) + "}" == a + ("," + (b + "}"))
  {
  }

  lemma ShortTail()
    ensures IsTail("}")
  {
  }

  lemma LongTail(next: string)
    requires next != "" && !Structural(next[0])
    ensures IsTail("," + ("\"" + next))
  {
  }

  lemma SameKey(a: string, b: string, x: string, y: string)
    requires CleanKey(a) && CleanKey(b) && "\"" + a + "\"" + x == "\"" + b + "\"" + y
    ensures a == b
  {
    var s := "\"" + a + "\"" + x;
    assert s[1..] == a + ("\"" + x) && s[1..] == b + ("\"" + y);
    SpanIs(s[1..], NotQuote, |a|);
    SpanIs(s[1..], NotQuote, |b|);
    assert s[1..][..|a|] == a && s[1..][..|b|] == b;
  }

  lemma EntryUnique(e: Entry, f: Entry, x: string, y: string)
    requires Separable(e) && Separable(f) && IsTail(x) && IsTail(y) && (e.key == f.key ==> e.bare == f.bare)
    requires EntryText(e) + x == EntryText(f) + y
    ensures e == f && x == y
  {
    hide Inseparable, IsTail;
    var t := EntryText(e) + x;
    assert t == "\"" + e.key + "\"" + (":" + ValueText(e) + x);
    assert t == "\"" + f.key + "\"" + (":" + ValueText(f) + y);
    SameKey(e.key, f.key, ":" + ValueText(e) + x, ":" + ValueText(f) + y);
    assert t[|e.key| + 3..] == ValueText(e) + x;
    assert t[|e.key| + 3..] == ValueText(f) + y;
    AfterKey(e, f, x, y);
  }

  lemma AfterKey(e: Entry, f: Entry, x: string, y: string)
    requires Separable(e) && Separable(f) && IsTail(x) && IsTail(y) && e.bare == f.bare
    requires ValueText(e) + x == ValueText(f) + y
    ensures e.value == f.value && x == y
  {
    hide Inseparable, IsTail, CleanKey;
    if e.bare {
      assert e.value + "" == e.value && f.value + "" == f.value;
      ValuesUnique(e.value, f.value, "", x, y);
    } else {
      Unquoted(e.value, x);
      Unquoted(f.value, y);
      ValuesUnique(e.value, f.value, "\"", x, y);
    }
  }

  lemma Unquoted(v: string, x: string)
    ensures (("\"" + v + "\"") + x)[1..] == v + "\"" + x
  {
  }

  lemma ValuesUnique(v: string, u: string, close: string, x: string, y: string)
    requires Inseparable(u) && Inseparable(v) && IsTail(x) && IsTail(y) && (close == "" || close == "\"")
    requires v + close + x == u + close + y
    ensures v == u && x == y
  {
    hide Inseparable, IsTail;
    if |v| <= |u| { ValueUnique(v, u, close, x, y); } else { ValueUnique(u, v, close, y, x); }
  }

  /** A rendered list of separable entries determines the list. */
  lemma {:induction false} BodyInjective(a: seq<Entry>, b: seq<Entry>)
    requires forall e :: e in a || e in b ==> Separable(e)
    requires forall e, f :: e in a && f in b && e.key == f.key ==> e.bare == f.bare
    requires Body(a) + "}" == Body(b) + "}"
    ensures a == b
  {
    hide EntryText, Separable, IsTail, TailOf;
    if a == [] || b == [] {
      Brace(a);
      Brace(b);
    } else {
      assert a[0] in a && b[0] in b;
      TextAndTail(a);
      TextAndTail(b);
      EntryUnique(a[0], b[0], TailOf(a), TailOf(b));
      SameTail(a, b);
      if |a| > 1 { BodyInjective(a[1..], b[1..]); }
      assert a == [a[0]] + a[1..] && b == [b[0]] + b[1..];
    }
  }

  lemma Brace(es: seq<Entry>)
    requires forall e :: e in es ==> Separable(e)
    ensures (Body(es) + "}")[0] == '}' <==> es == []
  {
    hide EntryText;
    if es == [] {
      assert Body(es) + "}" == "}";
    } else {
      assert es[0] in es;
      var next := NextKeyText(es);
    }
  }

  lemma SameTail(a: seq<Entry>, b: seq<Entry>)
    requires a != [] && b != [] && TailOf(a) == TailOf(b)
    ensures (|a| == 1 <==> |b| == 1) && (|a| > 1 ==> Body(a[1..]) + "}" == Body(b[1..]) + "}")
  {
    hide Body;
    if |a| > 1 && |b| > 1 {
      assert TailOf(a)[1..] == Body(a[1..]) + "}";
      assert TailOf(b)[1..] == Body(b[1..]) + "}";
    }
  }
}
