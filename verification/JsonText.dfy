/**
 * JSON trees and the compact text json.dumps prints for them (section 7 of RFC 8259 for
 * strings, every character outside printable ASCII escaped). The text determines the tree.
 */
module JsonText {
  import opened Text

  datatype Json =
    | Null
    | Bool(b: bool)
    | Num(n: int)
    | Str(s: string)
    | List(items: seq<Json>)
    | Dict(entries: seq<Item>)

  datatype Item = Item(key: string, value: Json)

  // ---- Printing ----

  function HexDigit(d: nat): (c: char)
    requires d < 16
    ensures c != '\\' && c != '"'
  {
    if d < 10 then ('0' as int + d) as char else ('a' as int + d - 10) as char
  }

  function Unicode(n: nat): string
    requires n < 0x1_0000
  {
    var a := n / 16;
    var b := a / 16;
    ['\\', 'u', HexDigit(b / 16), HexDigit(b % 16), HexDigit(a % 16), HexDigit(n % 16)]
  }

  /** The letter of a two-character escape, if the character has one. */
  function ShortEscape(c: char): Option<char> {
    if c == '"' then Some('"') else if c == '\\' then Some('\\')
    else if c == '\n' then Some('n') else if c == '\r' then Some('r')
    else if c == '\t' then Some('t') else if c as int == 12 then Some('f')
    else if c as int == 8 then Some('b') else None
  }

  function EscapeChar(c: char): (e: string)
    ensures e != "" && e[0] != '"'
  {
    var n := c as int;
    if ShortEscape(c).Some? then ['\\', ShortEscape(c).value]
    else if 32 <= n <= 126 then [c]
    else if n < 0x1_0000 then Unicode(n)
    else Unicode(0xD800 + (n - 0x1_0000) / 0x400) + Unicode(0xDC00 + (n - 0x1_0000) % 0x400)
  }

  function Escape(s: string): string {
    if s == "" then "" else EscapeChar(s[0]) + Escape(s[1..])
  }

  function Quote(s: string): string {
    "\"" + Escape(s) + "\""
  }

  function Print(j: Json): string
    decreases j, 0
  {
    match j
    case Null => "null"
    case Bool(b) => if b then "true" else "false"
    case Num(n) => Decimal(n)
    case Str(s) => Quote(s)
    case List(items) => "[" + PrintList(items) + "]"
    case Dict(entries) => "{" + PrintItems(entries) + "}"
  }

  function PrintList(items: seq<Json>): string
    decreases items, 1
  {
    if items == [] then ""
    else Print(items[0]) + (if |items| == 1 then "" else "," + PrintList(items[1..]))
  }

  function PrintItems(entries: seq<Item>): string
    decreases entries, 1
  {
    if entries == [] then ""
    else Quote(entries[0].key) + ":" + Print(entries[0].value)
         + (if |entries| == 1 then "" else "," + PrintItems(entries[1..]))
  }

  // ---- Escaped strings are uniquely readable ----

  lemma HexInjective(a: nat, b: nat)
    requires a < 16 && b < 16 && HexDigit(a) == HexDigit(b)
    ensures a == b
  {
  }

  lemma UnicodeInjective(m: nat, n: nat)
    requires m < 0x1_0000 && n < 0x1_0000 && Unicode(m) == Unicode(n)
    ensures m == n
  {
    hide HexDigit;
    var s, t := Unicode(m), Unicode(n);
    assert s[2] == t[2] && s[3] == t[3] && s[4] == t[4] && s[5] == t[5];
    HexInjective(m / 16 / 16 / 16, n / 16 / 16 / 16);
    HexInjective(m / 16 / 16 % 16, n / 16 / 16 % 16);
    HexInjective(m / 16 % 16, n / 16 % 16);
    HexInjective(m % 16, n % 16);
  }

  lemma UnicodePrefix(m: nat, n: nat, x: string, y: string)
    requires m < 0x1_0000 && n < 0x1_0000 && Unicode(m) + x == Unicode(n) + y
    ensures m == n && x == y
  {
    hide HexDigit, Unicode;
    UnicodeShape(m);
    UnicodeShape(n);
    assert Unicode(m) == (Unicode(m) + x)[..6] == (Unicode(n) + y)[..6] == Unicode(n);
    UnicodeInjective(m, n);
    assert x == (Unicode(m) + x)[6..] == (Unicode(n) + y)[6..] == y;
  }

  lemma UnicodeShape(n: nat)
    requires n < 0x1_0000
    ensures |Unicode(n)| == 6 && Unicode(n)[0] == '\\' && Unicode(n)[1] == 'u'
  {
  }

  // The four kinds of escape.

  predicate IsShort(c: char) { ShortEscape(c).Some? }
  predicate IsPlain(c: char) { !IsShort(c) && 32 <= c as int <= 126 }
  predicate IsBasic(c: char) { !IsShort(c) && !IsPlain(c) && (c as int) < 0x1_0000 }

  function High(c: char): nat
    requires c as int >= 0x1_0000
  {
    0xD800 + (c as int - 0x1_0000) / 0x400
  }

  function Low(c: char): nat
    requires c as int >= 0x1_0000
  {
    0xDC00 + (c as int - 0x1_0000) % 0x400
  }

  lemma EscapeForms(c: char)
    ensures IsShort(c) ==> EscapeChar(c) == ['\\', ShortEscape(c).value] && ShortEscape(c).value != 'u'
    ensures IsPlain(c) ==> EscapeChar(c) == [c] && c != '\\'
    ensures IsBasic(c) ==> EscapeChar(c) == Unicode(c as int) && !(0xD800 <= c as int < 0xE000)
    ensures !IsShort(c) && !IsPlain(c) && !IsBasic(c) ==>
              && c as int >= 0x1_0000 && 0xD800 <= High(c) < 0xDC00 && Low(c) < 0x1_0000
              && EscapeChar(c) == Unicode(High(c)) + Unicode(Low(c))
  {
    hide Unicode;
  }

  lemma ShortEscapeInjective(c: char, d: char)
    requires ShortEscape(c).Some? && ShortEscape(c) == ShortEscape(d)
    ensures c == d
  {
  }

  lemma SurrogatesInjective(c: char, d: char)
    requires c as int >= 0x1_0000 && d as int >= 0x1_0000 && High(c) == High(d) && Low(c) == Low(d)
    ensures c == d
  {
  }

  /** First and second character of an escaped character followed by more text. */
  lemma EscapeStart(c: char, x: string)
    ensures IsPlain(c) ==> (EscapeChar(c) + x)[0] == c != '\\'
    ensures !IsPlain(c) ==> (EscapeChar(c) + x)[0] == '\\' && |EscapeChar(c) + x| > 1
    ensures IsShort(c) ==> (EscapeChar(c) + x)[1] == ShortEscape(c).value != 'u'
    ensures !IsPlain(c) && !IsShort(c) ==> (EscapeChar(c) + x)[1] == 'u'
  {
    hide EscapeChar, ShortEscape, Unicode, High, Low;
    EscapeForms(c);
    if IsBasic(c) {
      UnicodeShape(c as int);
    } else if !IsPlain(c) && !IsShort(c) {
      UnicodeShape(High(c));
    }
  }

  /** No escape is a prefix of another one. */
  lemma EscapeCharInjective(c: char, d: char, x: string, y: string)
    requires EscapeChar(c) + x == EscapeChar(d) + y
    ensures c == d && x == y
  {
    hide EscapeChar, ShortEscape, Unicode, High, Low;
    EscapeForms(c);
    EscapeForms(d);
    EscapeStart(c, x);
    EscapeStart(d, y);
    if IsPlain(c) {
      assert x == (EscapeChar(c) + x)[1..] == (EscapeChar(d) + y)[1..] == y;
    } else if IsShort(c) {
      ShortEscapeInjective(c, d);
      assert x == (EscapeChar(c) + x)[2..] == (EscapeChar(d) + y)[2..] == y;
    } else {
      LongEscapesInjective(c, d, x, y);
    }
  }

  lemma LongEscapesInjective(c: char, d: char, x: string, y: string)
    requires !IsPlain(c) && !IsShort(c) && !IsPlain(d) && !IsShort(d)
    requires EscapeChar(c) + x == EscapeChar(d) + y
    ensures c == d && x == y
  {
    hide EscapeChar, ShortEscape, Unicode, High, Low;
    EscapeForms(c);
    EscapeForms(d);
    var m := if IsBasic(c) then c as int else High(c);
    var n := if IsBasic(d) then d as int else High(d);
    var x' := if IsBasic(c) then x else Unicode(Low(c)) + x;
    var y' := if IsBasic(d) then y else Unicode(Low(d)) + y;
    assert Unicode(m) + x' == EscapeChar(c) + x;
    assert Unicode(n) + y' == EscapeChar(d) + y;
    UnicodePrefix(m, n, x', y');
    if !IsBasic(c) {
      UnicodePrefix(Low(c), Low(d), x, y);
      SurrogatesInjective(c, d);
    }
  }

  lemma EscapeStep(s: string, x: string)
    ensures s == "" ==> (Escape(s) + "\"" + x)[0] == '"' && (Escape(s) + "\"" + x)[1..] == x
    ensures s != "" ==> (Escape(s) + "\"" + x)[0] != '"'
    ensures s != "" ==> Escape(s) + "\"" + x == EscapeChar(s[0]) + (Escape(s[1..]) + "\"" + x)
  {
    hide EscapeChar;
  }

  /** A quoted string and the text after it determine each other. */
  lemma {:induction false} EscapeInjective(s: string, t: string, x: string, y: string)
    requires Escape(s) + "\"" + x == Escape(t) + "\"" + y
    ensures s == t && x == y
  {
    hide EscapeChar, Escape;
    EscapeStep(s, x);
    EscapeStep(t, y);
    if s != "" {
      EscapeCharInjective(s[0], t[0], Escape(s[1..]) + "\"" + x, Escape(t[1..]) + "\"" + y);
      EscapeInjective(s[1..], t[1..], x, y);
    }
  }

  // ---- Printed trees are uniquely readable ----

  predicate IsNumberChar(c: char) {
    c == '-' || IsDigit(c)
  }

  /** What may follow a printed value: nothing, or a comma or closing bracket. */
  predicate Ends(x: string) {
    x == "" || x[0] == ',' || x[0] == ']' || x[0] == '}'
  }

  lemma DecimalChars(n: int)
    ensures Decimal(n) != "" && forall i :: 0 <= i < |Decimal(n)| ==> IsNumberChar(Decimal(n)[i])
  {
    hide Digits, Value;
    DigitsFirst(if n < 0 then -n else n);
  }

  lemma DecimalPrefix(m: int, n: int, x: string, y: string)
    requires Ends(x) && Ends(y) && Decimal(m) + x == Decimal(n) + y
    ensures m == n && x == y
  {
    hide Decimal;
    DecimalChars(m);
    DecimalChars(n);
    SpanIs(Decimal(m) + x, IsNumberChar, |Decimal(m)|);
    SpanIs(Decimal(n) + y, IsNumberChar, |Decimal(n)|);
    assert Decimal(m) == (Decimal(m) + x)[..|Decimal(m)|] == (Decimal(n) + y)[..|Decimal(n)|] == Decimal(n);
    DecimalInjective(m, n);
    assert x == (Decimal(m) + x)[|Decimal(m)|..] == (Decimal(n) + y)[|Decimal(n)|..] == y;
  }

  /** The first character of a printed value names its kind. */
  predicate Starts(j: Json, c: char) {
    match j
    case Null => c == 'n'
    case Bool(b) => c == if b then 't' else 'f'
    case Num(_) => IsNumberChar(c)
    case Str(_) => c == '"'
    case List(_) => c == '['
    case Dict(_) => c == '{'
  }

  lemma FirstChar(j: Json)
    ensures Print(j) != "" && Starts(j, Print(j)[0])
  {
    hide PrintList, PrintItems, Escape, Decimal;
    if j.Num? { DecimalChars(j.n); }
  }

  /** A printed tree and the text after it determine each other. */
  lemma {:induction false} PrintInjective(a: Json, b: Json, x: string, y: string)
    requires Ends(x) && Ends(y) && Print(a) + x == Print(b) + y
    ensures a == b && x == y
    decreases a, 0
  {
    hide PrintList, PrintItems, Escape, Decimal;
    FirstChar(a);
    FirstChar(b);
    assert (Print(a) + x)[0] == Print(a)[0] && (Print(b) + y)[0] == Print(b)[0];
    match a
    case Null => After(a, x, y);
    case Bool(_) => After(a, x, y);
    case Num(n) => DecimalPrefix(n, b.n, x, y);
    case Str(s) =>
      assert (Print(a) + x)[1..] == Escape(s) + "\"" + x;
      assert (Print(b) + y)[1..] == Escape(b.s) + "\"" + y;
      EscapeInjective(s, b.s, x, y);
    case List(items) =>
      assert (Print(a) + x)[1..] == PrintList(items) + "]" + x;
      assert (Print(b) + y)[1..] == PrintList(b.items) + "]" + y;
      PrintListInjective(items, b.items, x, y);
    case Dict(entries) =>
      assert (Print(a) + x)[1..] == PrintItems(entries) + "}" + x;
      assert (Print(b) + y)[1..] == PrintItems(b.entries) + "}" + y;
      PrintItemsInjective(entries, b.entries, x, y);
  }

  lemma After(a: Json, x: string, y: string)
    requires Print(a) + x == Print(a) + y
    ensures x == y
  {
    hide Print;
    assert x == (Print(a) + x)[|Print(a)|..] == (Print(a) + y)[|Print(a)|..] == y;
  }

  /** The text after one list element or dictionary entry, when `close` ends the whole. */
  function Rest(last: bool, tail: string, close: string, x: string): string {
    if last then close + x else "," + (tail + close + x)
  }

  lemma RestTail(last: bool, tail: string, close: string, x: string)
    requires close == "]" || close == "}"
    ensures Ends(Rest(last, tail, close, x)) && Rest(last, tail, close, x) != ""
    ensures (Rest(last, tail, close, x)[0] == ',') == !last
    ensures Rest(last, tail, close, x)[1..] == if last then x else tail + close + x
  {
  }

  /** A first piece, then what follows it inside the brackets. */
  lemma Regroup(head: string, last: bool, tail: string, close: string, x: string)
    ensures head + (if last then "" else "," + tail) + close + x == head + Rest(last, tail, close, x)
  {
  }

  lemma ListStep(a: seq<Json>, x: string)
    ensures a == [] ==> (PrintList(a) + "]" + x)[0] == ']' && (PrintList(a) + "]" + x)[1..] == x
    ensures a != [] ==> (PrintList(a) + "]" + x)[0] != ']'
    ensures a != [] ==> PrintList(a) + "]" + x == Print(a[0]) + Rest(|a| == 1, PrintList(a[1..]), "]", x)
  {
    hide Print, Rest;
    if a == [] {
      EmptyList(x);
    } else {
      NotClosing(a[0]);
      Regroup(Print(a[0]), |a| == 1, PrintList(a[1..]), "]", x);
      var rest := Rest(|a| == 1, PrintList(a[1..]), "]", x);
      assert (Print(a[0]) + rest)[0] == Print(a[0])[0];
    }
  }

  lemma NotClosing(j: Json)
    ensures Print(j) != "" && Print(j)[0] != ']'
  {
    hide Print;
    FirstChar(j);
  }

  lemma EmptyList(x: string)
    ensures PrintList([]) + "]" + x == "]" + x && PrintItems([]) + "}" + x == "}" + x
  {
  }

  lemma {:induction false} PrintListInjective(a: seq<Json>, b: seq<Json>, x: string, y: string)
    requires PrintList(a) + "]" + x == PrintList(b) + "]" + y
    ensures a == b && x == y
    decreases a, 1
  {
    hide Print, PrintList, Rest, Ends;
    ListStep(a, x);
    ListStep(b, y);
    if a != [] {
      var last, last' := |a| == 1, |b| == 1;
      var x', y' := Rest(last, PrintList(a[1..]), "]", x), Rest(last', PrintList(b[1..]), "]", y);
      RestTail(last, PrintList(a[1..]), "]", x);
      RestTail(last', PrintList(b[1..]), "]", y);
      PrintInjective(a[0], b[0], x', y');
      if !last { PrintListInjective(a[1..], b[1..], x, y); }
      assert a == [a[0]] + a[1..] && b == [b[0]] + b[1..];
    }
  }

  lemma ItemsStep(a: seq<Item>, x: string)
    ensures a == [] ==> (PrintItems(a) + "}" + x)[0] == '}' && (PrintItems(a) + "}" + x)[1..] == x
    ensures a != [] ==> (PrintItems(a) + "}" + x)[0] == '"'
    ensures a != [] ==> (PrintItems(a) + "}" + x ==
                         Quote(a[0].key) + ":" + Print(a[0].value)
                         + Rest(|a| == 1, PrintItems(a[1..]), "}", x))
  {
    hide Print, Escape, Rest;
    if a == [] {
      EmptyList(x);
    } else {
      Regroup(Quote(a[0].key) + ":" + Print(a[0].value), |a| == 1, PrintItems(a[1..]), "}", x);
    }
  }

  lemma {:induction false} PrintItemsInjective(a: seq<Item>, b: seq<Item>, x: string, y: string)
    requires PrintItems(a) + "}" + x == PrintItems(b) + "}" + y
    ensures a == b && x == y
    decreases a, 1
  {
    hide Print, PrintItems, Rest, Ends, Quote;
    ItemsStep(a, x);
    ItemsStep(b, y);
    if a != [] {
      var last, last' := |a| == 1, |b| == 1;
      var x', y' := Rest(last, PrintItems(a[1..]), "}", x), Rest(last', PrintItems(b[1..]), "}", y);
      RestTail(last, PrintItems(a[1..]), "}", x);
      RestTail(last', PrintItems(b[1..]), "}", y);
      PrintItemInjective(a[0], b[0], PrintItems(a) + "}" + x, PrintItems(b) + "}" + y, x', y');
      if !last { PrintItemsInjective(a[1..], b[1..], x, y); }
      assert a == [a[0]] + a[1..] && b == [b[0]] + b[1..];
    }
  }

  lemma PrintItemInjective(e: Item, f: Item, s: string, t: string, x: string, y: string)
    requires s == Quote(e.key) + ":" + Print(e.value) + x && t == Quote(f.key) + ":" + Print(f.value) + y
    requires s == t && Ends(x) && Ends(y)
    ensures e == f && x == y
    decreases e, 2
  {
    hide Print, Escape;
    assert s[1..] == Escape(e.key) + "\"" + (":" + Print(e.value) + x);
    assert t[1..] == Escape(f.key) + "\"" + (":" + Print(f.value) + y);
    EscapeInjective(e.key, f.key, ":" + Print(e.value) + x, ":" + Print(f.value) + y);
    assert Print(e.value) + x == (":" + Print(e.value) + x)[1..];
    assert Print(f.value) + y == (":" + Print(f.value) + y)[1..];
    PrintInjective(e.value, f.value, x, y);
  }

  // ---- Reference texts ----

  /** Quotes, backslashes and the five control characters that have a short form. */
  lemma ShortEscapes()
    ensures EscapeChar('"') == ['\\', '"'] && EscapeChar('\\') == ['\\', '\\']
    ensures EscapeChar('\n') == ['\\', 'n'] && EscapeChar('\r') == ['\\', 'r'] && EscapeChar('\t') == ['\\', 't']
    ensures EscapeChar(8 as char) == ['\\', 'b'] && EscapeChar(12 as char) == ['\\', 'f']
  {
    hide Unicode;
  }

  /** Printable ASCII stands for itself. */
  lemma PlainEscape(c: char)
    requires ' ' <= c <= '~' && c != '"' && c != '\\'
    ensures EscapeChar(c) == [c]
  {
    hide Unicode;
  }

  /** Every other character is written as four hexadecimal digits, or as a surrogate pair. */
  lemma UnicodeExamples()
    ensures EscapeChar(0 as char) == ['\\', 'u', '0', '0', '0', '0']
    ensures EscapeChar(127 as char) == ['\\', 'u', '0', '0', '7', 'f']
    ensures EscapeChar(0x12EF as char) == ['\\', 'u', '1', '2', 'e', 'f']
  {
  }

  lemma SurrogateExample()
    ensures EscapeChar(0x1F600 as char) == ['\\', 'u', 'd', '8', '3', 'd'] + ['\\', 'u', 'd', 'e', '0', '0']
  {
    hide Unicode;
    HighSurrogate();
    LowSurrogate();
  }

  lemma HighSurrogate()
    ensures Unicode(0xD83D) == ['\\', 'u', 'd', '8', '3', 'd']
  {
  }

  lemma LowSurrogate()
    ensures Unicode(0xDE00) == ['\\', 'u', 'd', 'e', '0', '0']
  {
  }

  /** Commas and colons without spaces, the three constants, decimal numbers and quoted strings. */
  lemma PrintForms(a: Json, b: Json, k: string, l: string, n: int)
    ensures Print(Null) == "null" && Print(Bool(true)) == "true" && Print(Bool(false)) == "false"
    ensures Print(Num(n)) == Decimal(n) && Print(Str(k)) == "\"" + Escape(k) + "\""
    ensures Print(List([])) == "[" + "]" && Print(Dict([])) == "{" + "}"
    ensures Print(List([a, b])) == "[" + (Print(a) + ("," + Print(b))) + "]"
    ensures Print(Dict([Item(k, a), Item(l, b)]))
         == "{" + (Quote(k) + ":" + Print(a) + ("," + (Quote(l) + ":" + Print(b)))) + "}"
  {
    hide Escape, Decimal;
    assert [a, b][1..] == [b] && [Item(k, a), Item(l, b)][1..] == [Item(l, b)];
    LastPrinted(b, l);
  }

  lemma LastPrinted(b: Json, l: string)
    ensures PrintList([b]) == Print(b) && PrintItems([Item(l, b)]) == Quote(l) + ":" + Print(b)
  {
    hide Quote;
    assert Print(b) + "" == Print(b);
    assert Quote(l) + ":" + Print(b) + "" == Quote(l) + ":" + Print(b);
  }
}
