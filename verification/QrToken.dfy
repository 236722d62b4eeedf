/**
 * QR token validation (backend/python/services/token_validator.py). `mac` stands for the
 * truncated HMAC, `utf8` for the text codec; base64 is section 4 of RFC 4648, decoded the
 * lenient way Python's decoder does.
 */
module QrToken {
  import opened Text

  type Byte = x: int | 0 <= x < 256

  type Mac = (string, string) -> string

  /** UTF-8 encoding, and decoding, which fails on ill-formed bytes. */
  datatype Codec = Codec(encode: string -> seq<Byte>, decode: seq<Byte> -> Option<string>)

  // ---- base64 ----

  function Char64(v: nat): char
    requires v < 64
  {
    if v < 26 then ('A' as int + v) as char
    else if v < 52 then ('a' as int + v - 26) as char
    else if v < 62 then ('0' as int + v - 52) as char
    else if v == 62 then '+' else '/'
  }

  function Value64(c: char): (v: Option<nat>)
    ensures v.Some? ==> v.value < 64
  {
    if 'A' <= c <= 'Z' then Some(c as int - 'A' as int)
    else if 'a' <= c <= 'z' then Some(c as int - 'a' as int + 26)
    else if '0' <= c <= '9' then Some(c as int - '0' as int + 52)
    else if c == '+' then Some(62) else if c == '/' then Some(63) else None
  }

  function Encode(bs: seq<Byte>): string {
    if bs == [] then ""
    else if |bs| == 1 then [Char64(bs[0] / 4), Char64(bs[0] % 4 * 16), '=', '=']
    else if |bs| == 2 then
      [Char64(bs[0] / 4), Char64(bs[0] % 4 * 16 + bs[1] / 16), Char64(bs[1] % 16 * 4), '=']
    else
      [Char64(bs[0] / 4), Char64(bs[0] % 4 * 16 + bs[1] / 16),
       Char64(bs[1] % 16 * 4 + bs[2] / 64), Char64(bs[2] % 64)] + Encode(bs[3..])
  }

  /** Bound on the bits left over after `quad` characters of a group of four. */
  function LeftBound(quad: nat): nat {
    if quad == 0 then 1 else if quad == 1 then 64 else if quad == 2 then 16 else 4
  }

  function Prepend(b: Byte, rest: Option<seq<Byte>>): Option<seq<Byte>> {
    if rest.None? then None else Some([b] + rest.value)
  }

  /** The decoder's loop: characters outside the alphabet are skipped, padding may end it early. */
  function DecodeFrom(s: string, quad: nat, left: nat, pads: nat): Option<seq<Byte>>
    requires quad < 4 && left < LeftBound(quad)
  {
    if s == "" then (if quad == 0 then Some([]) else None)
    else if s[0] == '=' then
      if quad >= 2 && quad + pads + 1 >= 4 then Some([])
      else DecodeFrom(s[1..], quad, left, if quad >= 2 then pads + 1 else pads)
    else
      match Value64(s[0])
      case None => DecodeFrom(s[1..], quad, left, pads)
      case Some(v) =>
        if quad == 0 then DecodeFrom(s[1..], 1, v, 0)
        else if quad == 1 then Prepend(left * 4 + v / 16, DecodeFrom(s[1..], 2, v % 16, 0))
        else if quad == 2 then Prepend(left * 16 + v / 4, DecodeFrom(s[1..], 3, v % 4, 0))
        else Prepend(left * 64 + v, DecodeFrom(s[1..], 0, 0, 0))
  }

  function Decode(s: string): Option<seq<Byte>> {
    DecodeFrom(s, 0, 0, 0)
  }

  lemma CharValue(v: nat)
    requires v < 64
    ensures Value64(Char64(v)) == Some(v) && Char64(v) != '='
  {
  }

  /** One alphabet character, read in any position of its group. */
  lemma DecodeChar(v: nat, rest: string, quad: nat, left: nat)
    requires v < 64 && quad < 4 && left < LeftBound(quad)
    ensures DecodeFrom([Char64(v)] + rest, quad, left, 0) ==
            if quad == 0 then DecodeFrom(rest, 1, v, 0)
            else if quad == 1 then Prepend(left * 4 + v / 16, DecodeFrom(rest, 2, v % 16, 0))
            else if quad == 2 then Prepend(left * 16 + v / 4, DecodeFrom(rest, 3, v % 4, 0))
            else Prepend(left * 64 + v, DecodeFrom(rest, 0, 0, 0))
  {
    hide Char64, Value64;
    CharValue(v);
    assert ([Char64(v)] + rest)[1..] == rest;
  }

  /** The bits of three bytes, regrouped. */
  lemma Bits(a: Byte, b: Byte, c: Byte)
    ensures a / 4 * 4 + (a % 4 * 16 + b / 16) / 16 == a && (a % 4 * 16 + b / 16) % 16 == b / 16
    ensures b / 16 * 16 + (b % 16 * 4 + c / 64) / 4 == b && (b % 16 * 4 + c / 64) % 4 == c / 64
    ensures c / 64 * 64 + c % 64 == c
  {
  }

  lemma DecodeGroup(a: Byte, b: Byte, c: Byte, rest: string)
    ensures DecodeFrom([Char64(a / 4), Char64(a % 4 * 16 + b / 16), Char64(b % 16 * 4 + c / 64), Char64(c % 64)] + rest,
                       0, 0, 0)
         == Prepend(a, Prepend(b, Prepend(c, DecodeFrom(rest, 0, 0, 0))))
  {
    hide Char64, DecodeFrom;
    var p, q, r, s := Char64(a / 4), Char64(a % 4 * 16 + b / 16), Char64(b % 16 * 4 + c / 64), Char64(c % 64);
    DecodeChar(a / 4, [q] + ([r] + ([s] + rest)), 0, 0);
    DecodeChar(a % 4 * 16 + b / 16, [r] + ([s] + rest), 1, a / 4);
    DecodeChar(b % 16 * 4 + c / 64, [s] + rest, 2, b / 16);
    Bits(a, b, c);
    DecodeChar(c % 64, rest, 3, c / 64);
    assert [p, q, r, s] + rest == [p] + ([q] + ([r] + ([s] + rest)));
  }

  /** Decoding inverts encoding. */
  lemma {:induction false} DecodeEncode(bs: seq<Byte>)
    ensures Decode(Encode(bs)) == Some(bs)
  {
    hide Char64, DecodeFrom;
    if bs == [] {
      EmptyDecodes();
    } else if |bs| == 1 {
      DecodeOne(bs[0], "");
      assert Encode(bs) + "" == Encode(bs);
      assert bs == [bs[0]];
    } else if |bs| == 2 {
      DecodeTwo(bs[0], bs[1], "");
      assert Encode(bs) + "" == Encode(bs);
      assert bs == [bs[0], bs[1]];
    } else {
      DecodeEncode(bs[3..]);
      DecodeGroup(bs[0], bs[1], bs[2], Encode(bs[3..]));
      assert bs == [bs[0]] + ([bs[1]] + ([bs[2]] + bs[3..]));
    }
  }

  lemma EmptyDecodes()
    ensures Decode("") == Some([])
  {
  }

  lemma DecodeOne(a: Byte, rest: string)
    ensures Decode([Char64(a / 4), Char64(a % 4 * 16), '=', '='] + rest) == Some([a])
  {
    hide Char64, DecodeFrom;
    var p, q := Char64(a / 4), Char64(a % 4 * 16);
    DecodeChar(a / 4, [q] + ("==" + rest), 0, 0);
    DecodeChar(a % 4 * 16, "==" + rest, 1, a / 4);
    Bits(a, 0, 0);
    PadsEnd(0, rest);
    assert [a] + [] == [a];
    assert [p, q, '=', '='] + rest == [p] + ([q] + ("==" + rest));
  }

  lemma DecodeTwo(a: Byte, b: Byte, rest: string)
    ensures Decode([Char64(a / 4), Char64(a % 4 * 16 + b / 16), Char64(b % 16 * 4), '='] + rest) == Some([a, b])
  {
    hide Char64, DecodeFrom;
    var p, q, r := Char64(a / 4), Char64(a % 4 * 16 + b / 16), Char64(b % 16 * 4);
    DecodeChar(a / 4, [q] + ([r] + ("=" + rest)), 0, 0);
    DecodeChar(a % 4 * 16 + b / 16, [r] + ("=" + rest), 1, a / 4);
    DecodeChar(b % 16 * 4, "=" + rest, 2, b / 16);
    Bits(a, b, 0);
    PadsEnd(0, rest);
    assert [a] + ([b] + []) == [a, b];
    assert [p, q, r, '='] + rest == [p] + ([q] + ([r] + ("=" + rest)));
  }

  lemma PadsEnd(left: nat, rest: string)
    requires left < 4
    ensures DecodeFrom("==" + rest, 2, left, 0) == Some([]) && DecodeFrom("=" + rest, 3, left, 0) == Some([])
  {
    assert ("==" + rest)[1..] == "=" + rest;
  }

  predicate IsBase64(s: string) {
    forall i :: 0 <= i < |s| ==> Value64(s[i]).Some? || s[i] == '='
  }

  lemma {:induction false} EncodeAlphabet(bs: seq<Byte>)
    ensures IsBase64(Encode(bs))
  {
    hide Char64, Value64;
    if bs == [] {
    } else {
      CharValue(bs[0] / 4);
      if |bs| == 1 {
        CharValue(bs[0] % 4 * 16);
      } else {
        CharValue(bs[0] % 4 * 16 + bs[1] / 16);
        if |bs| == 2 {
          CharValue(bs[1] % 16 * 4);
        } else {
          CharValue(bs[1] % 16 * 4 + bs[2] / 64);
          CharValue(bs[2] % 64);
          EncodeAlphabet(bs[3..]);
        }
      }
    }
  }

  // ---- Splitting ----

  /** Index of the first "::", or the length. */
  function FirstColons(s: string): (k: nat)
    ensures k <= |s| && (k < |s| ==> k + 2 <= |s| && s[k] == ':' && s[k + 1] == ':')
  {
    if |s| < 2 then |s|
    else if s[0] == ':' && s[1] == ':' then 0
    else 1 + FirstColons(s[1..])
  }

  function SplitColons(s: string): (parts: seq<string>)
    ensures parts != []
  {
    var k := FirstColons(s);
    if k == |s| then [s] else [s[..k]] + SplitColons(s[k + 2..])
  }

  predicate NotBar(c: char) { c != '|' }

  function SplitBars(s: string): (parts: seq<string>)
    ensures parts != []
  {
    var k := Span(s, NotBar);
    if k == |s| then [s] else [s[..k]] + SplitBars(s[k + 1..])
  }

  // ---- int() on ASCII text ----

  predicate IsPythonSpace(c: char) {
    c == ' ' || 9 <= c as int <= 13 || 28 <= c as int <= 31
  }

  function StripRight(s: string): string {
    if s != "" && IsPythonSpace(s[|s| - 1]) then StripRight(s[..|s| - 1]) else s
  }

  /** Digits with single underscores between them. */
  predicate Grouped(s: string) {
    s != "" && IsDigit(s[0]) &&
    (|s| == 1 || (if s[1] == '_' then Grouped(s[2..]) else Grouped(s[1..])))
  }

  function WithoutUnderscores(s: string): (d: string)
    requires Grouped(s)
    ensures AllDigits(d)
  {
    if |s| == 1 then s
    else [s[0]] + WithoutUnderscores(if s[1] == '_' then s[2..] else s[1..])
  }

  function ParseInt(s: string): Option<int> {
    var t := StripRight(s[Span(s, IsPythonSpace)..]);
    var u := if t != "" && (t[0] == '-' || t[0] == '+') then t[1..] else t;
    if !Grouped(u) then None
    else
      var n: int := Value(WithoutUnderscores(u));
      Some(if t[0] == '-' then -n else n)
  }

  lemma {:induction false} DigitsGrouped(d: string)
    requires d != "" && AllDigits(d)
    ensures Grouped(d) && WithoutUnderscores(d) == d
  {
    if |d| > 1 { DigitsGrouped(d[1..]); }
  }

  lemma ParseDecimal(n: int)
    ensures ParseInt(Decimal(n)) == Some(n)
  {
    hide Digits, Value, Grouped, WithoutUnderscores;
    var s := Decimal(n);
    var d := Digits(if n < 0 then -n else n);
    DigitsFirst(if n < 0 then -n else n);
    DigitsGrouped(d);
    SpanIs(s, IsPythonSpace, 0);
    assert s[0..] == s;
    assert n < 0 ==> s[1..] == d;
    assert IsDigit(s[|s| - 1]);
  }

  // ---- Validation ----

  /** Raises is an exception validate_qr_token does not catch. */
  datatype Verdict = Accepted | Rejected | Raises

  predicate IsAscii(s: string) {
    forall i :: 0 <= i < |s| ==> s[i] as int < 128
  }

  predicate Fresh(timestamp: int, now: int, maxAge: int) {
    -maxAge <= now - timestamp <= maxAge
  }

  /** The time stamp read from a decoded payload must be near enough. */
  function CheckPayload(decoded: string, maxAge: int, now: int): Verdict {
    var inner := SplitBars(decoded);
    if |inner| < 2 then Rejected
    else
      match ParseInt(inner[1])
      case None => Rejected
      case Some(ts) => if Fresh(ts, now, maxAge) then Accepted else Rejected
  }

  function DecodeText(utf8: Codec, base64: string): Option<string> {
    if !IsAscii(base64) then None
    else
      match Decode(base64)
      case None => None
      case Some(bs) => utf8.decode(bs)
  }

  /** validate_qr_token at the instant `now`. */
  function Validate(mac: Mac, utf8: Codec, token: string, secret: string, maxAge: int, now: int): Verdict {
    if !("IATT::" <= token) then Rejected
    else
      var parts := SplitColons(token);
      if |parts| != 3 then Rejected
      else if !IsAscii(parts[2]) then Raises
      else if mac(secret, parts[1]) != parts[2] then Rejected
      else
        match DecodeText(utf8, parts[1])
        case None => Rejected
        case Some(decoded) => CheckPayload(decoded, maxAge, now)
  }

  function Payload(id: string, timestamp: int, nonce: string): string {
    id + "|" + Decimal(timestamp) + "|" + nonce
  }

  /** The documented token format. */
  function Format(mac: Mac, utf8: Codec, payload: string, secret: string): string {
    var base64 := Encode(utf8.encode(payload));
    "IATT::" + base64 + "::" + mac(secret, base64)
  }

  predicate NoColons(s: string) {
    forall i :: 0 <= i < |s| ==> s[i] != ':'
  }

  lemma SplitThree(a: string, b: string, c: string)
    requires NoColons(a) && NoColons(b) && NoColons(c)
    ensures SplitColons(a + "::" + b + "::" + c) == [a, b, c]
  {
    hide SplitColons;
    ThreeParts(a, b, c);
  }

  lemma Base64HasNoColons(s: string)
    requires IsBase64(s)
    ensures NoColons(s) && IsAscii(s)
  {
  }

  /** A token in the documented format passes its signature and is judged by its payload alone. */
  lemma FormattedToken(mac: Mac, utf8: Codec, payload: string, secret: string, maxAge: int, now: int)
    requires forall k, m :: NoColons(mac(k, m)) && IsAscii(mac(k, m))
    requires utf8.decode(utf8.encode(payload)) == Some(payload)
    ensures Validate(mac, utf8, Format(mac, utf8, payload, secret), secret, maxAge, now)
         == CheckPayload(payload, maxAge, now)
  {
    hide Encode, Decode, SplitColons, CheckPayload, IsBase64, IsAscii, NoColons;
    var base64 := Encode(utf8.encode(payload));
    EncodeAlphabet(utf8.encode(payload));
    Base64HasNoColons(base64);
    DecodeEncode(utf8.encode(payload));
    var sig := mac(secret, base64);
    var token := "IATT" + "::" + base64 + "::" + sig;
    assert Format(mac, utf8, payload, secret) == token;
    assert token[..6] == "IATT::";
    PrefixHasNoColons();
    SplitThree("IATT", base64, sig);
  }

  lemma PrefixHasNoColons()
    ensures NoColons("IATT")
  {
  }

  /** Splitting at bars takes the text before the first bar off. */
  lemma SplitFirst(a: string, rest: string)
    requires forall i :: 0 <= i < |a| ==> a[i] != '|'
    ensures SplitBars(a + "|" + rest) == [a] + SplitBars(rest)
  {
    var s := a + "|" + rest;
    SpanIs(s, NotBar, |a|);
    assert s[..|a|] == a && s[|a| + 1..] == rest;
  }

  lemma DecimalHasNoBar(n: int)
    ensures forall i :: 0 <= i < |Decimal(n)| ==> Decimal(n)[i] != '|'
  {
    hide Digits, Value;
    DigitsFirst(if n < 0 then -n else n);
  }

  /**
   * Round trip: for a session id without '|', a token in the documented format is accepted
   * exactly when its time stamp is within the allowed age, and rejected otherwise.
   */
  lemma TokenRoundTrip(mac: Mac, utf8: Codec, id: string, ts: int, nonce: string, secret: string, maxAge: int, now: int)
    requires forall k, m :: NoColons(mac(k, m)) && IsAscii(mac(k, m))
    requires utf8.decode(utf8.encode(Payload(id, ts, nonce))) == Some(Payload(id, ts, nonce))
    requires forall i :: 0 <= i < |id| ==> id[i] != '|'
    ensures Validate(mac, utf8, Format(mac, utf8, Payload(id, ts, nonce), secret), secret, maxAge, now)
         == if Fresh(ts, now, maxAge) then Accepted else Rejected
  {
    hide Validate, Format, SplitBars, ParseInt, Decimal, NoColons, IsAscii;
    FormattedToken(mac, utf8, Payload(id, ts, nonce), secret, maxAge, now);
    assert Payload(id, ts, nonce) == id + "|" + (Decimal(ts) + "|" + nonce);
    SplitFirst(id, Decimal(ts) + "|" + nonce);
    DecimalHasNoBar(ts);
    SplitFirst(Decimal(ts), nonce);
    ParseDecimal(ts);
  }

  predicate HasBar(id: string) {
    exists i :: 0 <= i < |id| && id[i] == '|'
  }

  lemma AppendParts(a: string, b: string, k: nat)
    requires k < |a|
    ensures var s := a + "|" + b; s[..k] == a[..k] && s[k] == a[k] && s[k + 1..] == a[k + 1..] + "|" + b
  {
  }

  lemma SplitStep(s: string, k: nat)
    requires Span(s, NotBar) == k
    ensures SplitBars(s) == if k < |s| then [s[..k]] + SplitBars(s[k + 1..]) else [s]
  {
    hide Span;
  }

  lemma {:induction false} SplitAppend(a: string, b: string)
    ensures SplitBars(a + "|" + b) == SplitBars(a) + SplitBars(b)
    decreases |a|
  {
    hide Span, SplitBars;
    var k := Span(a, NotBar);
    SplitStep(a, k);
    if k == |a| {
      SplitFirst(a, b);
    } else {
      var s := a + "|" + b;
      AppendParts(a, b, k);
      SpanKept(a, s, k);
      SplitStep(s, k);
      SplitAppend(a[k + 1..], b);
      Associate([a[..k]], SplitBars(a[k + 1..]), SplitBars(b));
    }
  }

  lemma SpanKept(a: string, s: string, k: nat)
    requires k < |a| && k < |s| && Span(a, NotBar) == k && s[..k] == a[..k] && s[k] == a[k]
    ensures Span(s, NotBar) == k
  {
    hide Span;
    assert forall i :: 0 <= i < k ==> s[i] == s[..k][i] == a[..k][i] == a[i];
    SpanIs(s, NotBar, k);
  }

  lemma Associate<T>(a: seq<T>, b: seq<T>, c: seq<T>)
    ensures (a + b) + c == a + (b + c)
  {
  }

  lemma OnePart(id: string)
    ensures |SplitBars(id)| == 1 <==> !HasBar(id)
    ensures !HasBar(id) ==> SplitBars(id) == [id]
  {
    var k := Span(id, NotBar);
    if k < |id| { assert id[k] == '|'; }
  }

  /** The field that is judged is the time stamp, unless the id has a bar: then it is the id's second part. */
  lemma JudgedField(id: string, ts: int, nonce: string)
    ensures |SplitBars(Payload(id, ts, nonce))| >= 2
    ensures SplitBars(Payload(id, ts, nonce))[1] == if HasBar(id) then SplitBars(id)[1] else Decimal(ts)
  {
    hide SplitBars, Decimal, HasBar;
    assert Payload(id, ts, nonce) == id + "|" + (Decimal(ts) + "|" + nonce);
    SplitAppend(id, Decimal(ts) + "|" + nonce);
    DecimalHasNoBar(ts);
    SplitFirst(Decimal(ts), nonce);
    OnePart(id);
  }

  /** With a '|' in the id the id's second part is judged, whatever the time stamp. */
  lemma BarInId(mac: Mac, utf8: Codec, id: string, ts: int, nonce: string, secret: string, maxAge: int, now: int)
    requires forall k, m :: NoColons(mac(k, m)) && IsAscii(mac(k, m))
    requires utf8.decode(utf8.encode(Payload(id, ts, nonce))) == Some(Payload(id, ts, nonce))
    requires HasBar(id)
    ensures |SplitBars(id)| >= 2
    ensures var judged := ParseInt(SplitBars(id)[1]);
            Validate(mac, utf8, Format(mac, utf8, Payload(id, ts, nonce), secret), secret, maxAge, now)
            == if judged.Some? && Fresh(judged.value, now, maxAge) then Accepted else Rejected
  {
    hide Validate, Format, SplitBars, ParseInt, Decimal, NoColons, IsAscii, Payload, HasBar;
    FormattedToken(mac, utf8, Payload(id, ts, nonce), secret, maxAge, now);
    JudgedField(id, ts, nonce);
    OnePart(id);
  }

  /** What the format promises for one id: tokens are accepted exactly while they are fresh. */
  ghost predicate Trustworthy(mac: Mac, utf8: Codec, id: string, secret: string) {
    forall ts, nonce, maxAge, now ::
      Validate(mac, utf8, Format(mac, utf8, Payload(id, ts, nonce), secret), secret, maxAge, now)
      == if Fresh(ts, now, maxAge) then Accepted else Rejected
  }

  /** The promise is kept for exactly the ids without a '|'. */
  lemma TrustworthyIds(mac: Mac, utf8: Codec, id: string, secret: string)
    requires forall k, m :: NoColons(mac(k, m)) && IsAscii(mac(k, m))
    requires forall text :: utf8.decode(utf8.encode(text)) == Some(text)
    ensures Trustworthy(mac, utf8, id, secret) <==> !HasBar(id)
  {
    hide Validate, Format, ParseInt, Payload, NoColons, IsAscii, SplitBars;
    if HasBar(id) {
      BarInId(mac, utf8, id, 0, "", secret, 0, 0);
      BarInId(mac, utf8, id, 1, "", secret, 0, 1);
    } else {
      forall ts, nonce, maxAge, now
        ensures Validate(mac, utf8, Format(mac, utf8, Payload(id, ts, nonce), secret), secret, maxAge, now)
             == if Fresh(ts, now, maxAge) then Accepted else Rejected
      {
        TokenRoundTrip(mac, utf8, id, ts, nonce, secret, maxAge, now);
      }
    }
  }

  // ---- Exactly which tokens are accepted ----

  /** No two colons in a row. */
  predicate NoDouble(s: string) {
    forall i :: 0 <= i < |s| - 1 ==> !(s[i] == ':' && s[i + 1] == ':')
  }

  /** Text that ends where the first two colons in a row after it begin. */
  predicate EndsClear(s: string) {
    NoDouble(s) && (s != "" ==> s[|s| - 1] != ':')
  }

  lemma {:induction false} FirstColonsLeast(s: string)
    ensures FirstColons(s) < |s| ==> EndsClear(s[..FirstColons(s)])
    ensures FirstColons(s) == |s| <==> NoDouble(s)
  {
    if |s| >= 2 && !(s[0] == ':' && s[1] == ':') {
      FirstColonsLeast(s[1..]);
      var k := FirstColons(s);
      assert NoDouble(s) <==> NoDouble(s[1..]) by {
        assert forall i :: 0 <= i < |s[1..]| ==> s[1..][i] == s[i + 1];
        if NoDouble(s[1..]) {
          forall i | 0 <= i < |s| - 1 ensures !(s[i] == ':' && s[i + 1] == ':') {
            if i > 0 { assert s[1..][i - 1] == s[i] && s[1..][i] == s[i + 1]; }
          }
        }
      }
      if k < |s| {
        var r := s[1..][..k - 1];
        assert forall i :: 0 <= i < k - 1 ==> r[i] == s[i + 1];
        assert s[..k] == [s[0]] + r;
        assert k == 1 ==> s[1] == ':' && s[0] != ':';
      }
    }
  }

  lemma {:induction false} FirstColonsAt(a: string, rest: string)
    requires EndsClear(a)
    ensures FirstColons(a + "::" + rest) == |a|
  {
    var s := a + "::" + rest;
    if a == "" {
      assert s[0] == ':' && s[1] == ':';
    } else {
      assert forall i :: 0 <= i < |a| - 1 ==> a[1..][i] == a[i + 1];
      assert s[0] == a[0] && s[1] == if |a| > 1 then a[1] else ':';
      assert s[1..] == a[1..] + "::" + rest;
      FirstColonsAt(a[1..], rest);
    }
  }

  lemma SplitClear(a: string, rest: string)
    requires EndsClear(a)
    ensures SplitColons(a + "::" + rest) == [a] + SplitColons(rest)
  {
    hide FirstColons;
    var s := a + "::" + rest;
    FirstColonsAt(a, rest);
    assert s[..|a|] == a && s[|a| + 2..] == rest;
  }

  lemma SplitParts(s: string) returns (rest: string)
    requires |SplitColons(s)| > 1
    ensures s == SplitColons(s)[0] + "::" + rest && EndsClear(SplitColons(s)[0])
    ensures SplitColons(rest) == SplitColons(s)[1..]
  {
    hide FirstColons, EndsClear, NoDouble;
    FirstColonsLeast(s);
    var k := FirstColons(s);
    rest := s[k + 2..];
    assert SplitColons(s) == [s[..k]] + SplitColons(rest);
    assert s[k..k + 2] == "::";
    assert s == s[..k] + s[k..k + 2] + s[k + 2..];
  }

  lemma SplitSingle(s: string)
    ensures |SplitColons(s)| == 1 <==> NoDouble(s)
    ensures NoDouble(s) ==> SplitColons(s) == [s]
  {
    hide FirstColons;
    FirstColonsLeast(s);
  }

  /** A token splits into three parts exactly when it is these three joined, each ending clear. */
  lemma ThreeParts(a: string, b: string, c: string)
    requires EndsClear(a) && EndsClear(b) && NoDouble(c)
    ensures SplitColons(a + "::" + b + "::" + c) == [a, b, c]
  {
    hide SplitColons, EndsClear, NoDouble;
    assert a + "::" + b + "::" + c == a + "::" + (b + "::" + c);
    SplitClear(a, b + "::" + c);
    SplitClear(b, c);
    SplitSingle(c);
  }

  lemma PartsOfThree(token: string) returns (a: string, b: string, c: string)
    requires |SplitColons(token)| == 3
    ensures SplitColons(token) == [a, b, c] && token == a + "::" + b + "::" + c
    ensures EndsClear(a) && EndsClear(b) && NoDouble(c)
  {
    hide SplitColons, EndsClear, NoDouble;
    var parts := SplitColons(token);
    var r := SplitParts(token);
    var q := SplitParts(r);
    SplitSingle(q);
    a, b, c := parts[0], parts[1], parts[2];
    assert SplitColons(q) == [c];
    assert a + "::" + (b + "::" + q) == a + "::" + b + "::" + q;
  }

  /** `second` is the second of the fields of `text`, whatever follows it. */
  predicate SecondField(text: string, first: string, second: string, more: string) {
    && text == first + "|" + second + more
    && !HasBar(first) && !HasBar(second) && (more == "" || more[0] == '|')
  }

  lemma SecondFieldSplits(text: string, first: string, second: string, more: string)
    requires SecondField(text, first, second, more)
    ensures |SplitBars(text)| >= 2 && SplitBars(text)[1] == second
  {
    hide SplitBars, HasBar;
    OnePart(first);
    OnePart(second);
    if more == "" {
      assert text == first + "|" + second;
      SplitAppend(first, second);
    } else {
      assert more == "|" + more[1..];
      assert text == first + "|" + (second + "|" + more[1..]);
      SplitAppend(first, second + "|" + more[1..]);
      SplitAppend(second, more[1..]);
    }
  }

  lemma SplitsSecondField(text: string) returns (first: string, second: string, more: string)
    requires |SplitBars(text)| >= 2
    ensures SecondField(text, first, second, more) && second == SplitBars(text)[1]
  {
    hide Span;
    var k := Span(text, NotBar);
    first := text[..k];
    var rest := text[k + 1..];
    assert text == first + "|" + rest;
    var j := Span(rest, NotBar);
    second, more := rest[..j], rest[j..];
    assert rest == second + more;
    assert forall i :: 0 <= i < k ==> NotBar(first[i]);
    assert forall i :: 0 <= i < j ==> NotBar(second[i]);
  }

  /**
   * A signed token: the prefix, base64 text, and the signature of just that text; the base64 text
   * decodes to fields of which the second reads as the number `ts`.
   */
  predicate Genuine(mac: Mac, utf8: Codec, token: string, secret: string,
                    b: string, text: string, first: string, second: string, more: string, ts: int) {
    && token == "IATT::" + b + "::" + mac(secret, b)
    && EndsClear(b) && NoDouble(mac(secret, b)) && IsAscii(mac(secret, b))
    && DecodeText(utf8, b) == Some(text)
    && SecondField(text, first, second, more) && ParseInt(second) == Some(ts)
  }

  lemma ClearPrefix()
    ensures EndsClear("IATT")
  {
  }

  lemma PrefixLength(a: string, rest: string)
    requires EndsClear(a) && "IATT::" <= a + "::" + rest
    ensures a == "IATT"
  {
    hide FirstColons;
    var s := a + "::" + rest;
    FirstColonsAt(a, rest);
    ClearPrefix();
    assert s == "IATT" + "::" + s[6..];
    FirstColonsAt("IATT", s[6..]);
    assert a == s[..|a|];
  }

  /** What an accepted token is made of. */
  lemma AcceptedIsGenuine(mac: Mac, utf8: Codec, token: string, secret: string, maxAge: int, now: int)
    returns (b: string, text: string, first: string, second: string, more: string, ts: int)
    requires Validate(mac, utf8, token, secret, maxAge, now) == Accepted
    ensures Genuine(mac, utf8, token, secret, b, text, first, second, more, ts) && -maxAge <= now - ts <= maxAge
  {
    hide SplitColons, SplitBars, ParseInt, DecodeText, EndsClear, NoDouble, IsAscii, SecondField;
    var a, p, c := PartsOfThree(token);
    assert token == a + "::" + (p + "::" + c);
    PrefixLength(a, p + "::" + c);
    b, text := p, DecodeText(utf8, p).value;
    first, second, more := SplitsSecondField(text);
    ts := ParseInt(second).value;
    assert token == "IATT::" + b + "::" + c;
  }

  lemma GenuineAccepted(mac: Mac, utf8: Codec, token: string, secret: string, maxAge: int, now: int,
                        b: string, text: string, first: string, second: string, more: string, ts: int)
    requires Genuine(mac, utf8, token, secret, b, text, first, second, more, ts)
    ensures Validate(mac, utf8, token, secret, maxAge, now)
         == if -maxAge <= now - ts <= maxAge then Accepted else Rejected
  {
    hide SplitColons, SplitBars, ParseInt, DecodeText, EndsClear, NoDouble, IsAscii, SecondField;
    var sig := mac(secret, b);
    ClearPrefix();
    ThreeParts("IATT", b, sig);
    assert token == "IATT" + "::" + b + "::" + sig;
    assert token[..6] == "IATT::";
    SecondFieldSplits(text, first, second, more);
  }

  /** A token is accepted if and only if it is genuine and its time stamp is within the allowed age. */
  lemma AcceptedExactly(mac: Mac, utf8: Codec, token: string, secret: string, maxAge: int, now: int)
    ensures Validate(mac, utf8, token, secret, maxAge, now) == Accepted <==>
              exists b, text, first, second, more, ts ::
                Genuine(mac, utf8, token, secret, b, text, first, second, more, ts) && -maxAge <= now - ts <= maxAge
  {
    hide Validate, Genuine;
    if Validate(mac, utf8, token, secret, maxAge, now) == Accepted {
      var b, text, first, second, more, ts := AcceptedIsGenuine(mac, utf8, token, secret, maxAge, now);
    }
    if b, text, first, second, more, ts :|
         Genuine(mac, utf8, token, secret, b, text, first, second, more, ts) && -maxAge <= now - ts <= maxAge {
      GenuineAccepted(mac, utf8, token, secret, maxAge, now, b, text, first, second, more, ts);
    }
  }

  /** A formatted token under any other signature is rejected, whatever it says. */
  lemma ForgedRejected(mac: Mac, utf8: Codec, payload: string, secret: string, sig: string, maxAge: int, now: int)
    requires NoColons(sig) && IsAscii(sig) && sig != mac(secret, Encode(utf8.encode(payload)))
    ensures Validate(mac, utf8, "IATT::" + Encode(utf8.encode(payload)) + "::" + sig, secret, maxAge, now) == Rejected
  {
    hide Encode, SplitColons, CheckPayload, DecodeText, IsBase64, IsAscii, NoColons;
    var base64 := Encode(utf8.encode(payload));
    EncodeAlphabet(utf8.encode(payload));
    Base64HasNoColons(base64);
    PrefixHasNoColons();
    SplitThree("IATT", base64, sig);
    assert "IATT" + "::" + base64 + "::" + sig == "IATT::" + base64 + "::" + sig;
    assert ("IATT::" + base64 + "::" + sig)[..6] == "IATT::";
  }

  /** A signature that is not ASCII is the one thing validation does not catch. */
  lemma RaisesExactly(mac: Mac, utf8: Codec, token: string, secret: string, maxAge: int, now: int)
    ensures Validate(mac, utf8, token, secret, maxAge, now) == Raises <==>
              exists b, sig :: token == "IATT::" + b + "::" + sig && EndsClear(b) && NoDouble(sig) && !IsAscii(sig)
  {
    hide SplitColons, EndsClear, NoDouble, IsAscii, CheckPayload, DecodeText;
    if "IATT::" <= token && |SplitColons(token)| == 3 {
      var a, p, c := PartsOfThree(token);
      assert token == a + "::" + (p + "::" + c);
      PrefixLength(a, p + "::" + c);
      assert token == "IATT::" + p + "::" + c;
    }
    forall b, sig | token == "IATT::" + b + "::" + sig && EndsClear(b) && NoDouble(sig) && !IsAscii(sig)
      ensures Validate(mac, utf8, token, secret, maxAge, now) == Raises
    {
      ClearPrefix();
      ThreeParts("IATT", b, sig);
      assert token == "IATT" + "::" + b + "::" + sig;
      assert token[..6] == "IATT::";
    }
    PayloadNeverRaises(maxAge, now);
  }

  lemma PayloadNeverRaises(maxAge: int, now: int)
    ensures forall text :: CheckPayload(text, maxAge, now) != Raises
  {
    hide SplitBars, ParseInt;
  }

  // ---- Text after padding, and text cut short ----

  /** Padding ends the text: what follows it is not looked at. */
  lemma {:induction false} PaddingEnds(bs: seq<Byte>, rest: string)
    requires |bs| % 3 != 0
    ensures Decode(Encode(bs) + rest) == Some(bs)
  {
    hide Char64, DecodeFrom;
    if |bs| == 1 {
      DecodeOne(bs[0], rest);
      assert bs == [bs[0]];
    } else if |bs| == 2 {
      DecodeTwo(bs[0], bs[1], rest);
      assert bs == [bs[0], bs[1]];
    } else {
      PaddingEnds(bs[3..], rest);
      DecodeGroup(bs[0], bs[1], bs[2], Encode(bs[3..]) + rest);
      assert bs == [bs[0]] + ([bs[1]] + ([bs[2]] + bs[3..]));
      EncodeMore(bs, rest);
    }
  }

  lemma EncodeMore(bs: seq<Byte>, rest: string)
    requires |bs| >= 3
    ensures Encode(bs) + rest ==
      [Char64(bs[0] / 4), Char64(bs[0] % 4 * 16 + bs[1] / 16),
       Char64(bs[1] % 16 * 4 + bs[2] / 64), Char64(bs[2] % 64)] + (Encode(bs[3..]) + rest)
  {
    hide Char64;
    var group := [Char64(bs[0] / 4), Char64(bs[0] % 4 * 16 + bs[1] / 16),
                  Char64(bs[1] % 16 * 4 + bs[2] / 64), Char64(bs[2] % 64)];
    assert Encode(bs) == group + Encode(bs[3..]);
    Associate(group, Encode(bs[3..]), rest);
  }

  /** A text that stops inside a group is not decoded. */
  lemma CutShort(v: nat, u: nat, w: nat)
    requires v < 64 && u < 64 && w < 64
    ensures Decode([Char64(v)]) == None && Decode([Char64(v), Char64(u)]) == None
    ensures Decode([Char64(v), Char64(u), Char64(w)]) == None
  {
    hide Char64, DecodeFrom;
    DecodeChar(v, [], 0, 0);
    DecodeChar(v, [Char64(u)], 0, 0);
    DecodeChar(v, [Char64(u)] + [Char64(w)], 0, 0);
    DecodeChar(u, [], 1, v);
    DecodeChar(u, [Char64(w)], 1, v);
    DecodeChar(w, [], 2, u % 16);
    NothingLeft(v, u % 16, w % 4);
    assert [Char64(v)] + [] == [Char64(v)] && [Char64(u)] + [] == [Char64(u)] && [Char64(w)] + [] == [Char64(w)];
    assert [Char64(v)] + [Char64(u)] == [Char64(v), Char64(u)];
    assert [Char64(v)] + ([Char64(u)] + [Char64(w)]) == [Char64(v), Char64(u), Char64(w)];
  }

  lemma NothingLeft(a: nat, b: nat, c: nat)
    requires a < 64 && b < 16 && c < 4
    ensures DecodeFrom("", 1, a, 0) == None && DecodeFrom("", 2, b, 0) == None && DecodeFrom("", 3, c, 0) == None
  {
  }

  // ---- Reference values ----

  /** The test vectors of section 10 of RFC 4648. */
  lemma EncodeVectors()
    ensures Encode([]) == "" && Encode([102]) == "Zg==" && Encode([102, 111]) == "Zm8="
    ensures Encode([102, 111, 111]) == "Zm9v"
    ensures Encode([102, 111, 111, 98, 97, 114]) == "Zm9vYmFy"
  {
    assert [102, 111, 111, 98, 97, 114][3..] == [98, 97, 114] && [98, 97, 114][3..] == [];
    assert [102, 111, 111][3..] == [];
  }

  /** The last two letters of its alphabet. */
  lemma EncodeLastLetters()
    ensures Encode([251, 255, 0]) == "+/8A"
  {
    assert [251, 255, 0][3..] == [];
  }

  /** A character outside the alphabet is skipped wherever it stands. */
  lemma {:induction false} SkipsForeign(a: string, c: char, b: string, quad: nat, left: nat, pads: nat)
    requires quad < 4 && left < LeftBound(quad)
    requires c != '=' && c != '+' && c != '/' && !('A' <= c <= 'Z') && !('a' <= c <= 'z') && !('0' <= c <= '9')
    ensures DecodeFrom(a + [c] + b, quad, left, pads) == DecodeFrom(a + b, quad, left, pads)
  {
    var s, t := a + [c] + b, a + b;
    if a == "" {
      assert s[1..] == b && t == b;
    } else {
      assert s[0] == t[0] == a[0] && s[1..] == a[1..] + [c] + b && t[1..] == a[1..] + b;
      if a[0] == '=' {
        SkipsForeign(a[1..], c, b, quad, left, if quad >= 2 then pads + 1 else pads);
      } else if Value64(a[0]) == None {
        SkipsForeign(a[1..], c, b, quad, left, pads);
      } else {
        var v := Value64(a[0]).value;
        SkipsForeign(a[1..], c, b, 1, v, 0);
        SkipsForeign(a[1..], c, b, 2, v % 16, 0);
        SkipsForeign(a[1..], c, b, 3, v % 4, 0);
        SkipsForeign(a[1..], c, b, 0, 0, 0);
      }
    }
  }

  /** White space around a number is ignored, and a plus sign is allowed. */
  lemma ParseSpaced(lead: string, n: int, trail: string)
    requires forall i :: 0 <= i < |lead| ==> lead[i] as int in {9, 10, 11, 12, 13, 28, 29, 30, 31, 32}
    requires forall i :: 0 <= i < |trail| ==> trail[i] as int in {9, 10, 11, 12, 13, 28, 29, 30, 31, 32}
    ensures ParseInt(lead + Decimal(n) + trail) == Some(n)
    ensures n >= 0 ==> ParseInt(lead + "+" + Decimal(n) + trail) == Some(n)
  {
    hide Digits, Value, Grouped, WithoutUnderscores, Span, StripRight;
    var s := Decimal(n);
    DigitsFirst(if n < 0 then -n else n);
    DigitsGrouped(Digits(if n < 0 then -n else n));
    Stripped(lead, s, trail);
    assert n < 0 ==> s[1..] == Digits(-n);
    if n >= 0 {
      Stripped(lead, "+" + s, trail);
      assert lead + ("+" + s) + trail == lead + "+" + s + trail;
      assert ("+" + s)[1..] == s;
    }
  }

  lemma Stripped(lead: string, s: string, trail: string)
    requires forall i :: 0 <= i < |lead| ==> IsPythonSpace(lead[i])
    requires forall i :: 0 <= i < |trail| ==> IsPythonSpace(trail[i])
    requires s != "" && !IsPythonSpace(s[0]) && !IsPythonSpace(s[|s| - 1])
    ensures var text := lead + s + trail; StripRight(text[Span(text, IsPythonSpace)..]) == s
  {
    var text := lead + s + trail;
    SpanIs(text, IsPythonSpace, |lead|);
    assert text[|lead|..] == s + trail;
    StripsTrail(s, trail);
  }

  lemma {:induction false} StripsTrail(s: string, trail: string)
    requires forall i :: 0 <= i < |trail| ==> IsPythonSpace(trail[i])
    requires s != "" && !IsPythonSpace(s[|s| - 1])
    ensures StripRight(s + trail) == s
  {
    if trail == "" {
      assert s + trail == s;
    } else {
      var t := s + trail;
      assert t[..|t| - 1] == s + trail[..|trail| - 1];
      StripsTrail(s, trail[..|trail| - 1]);
    }
  }

  /** Single underscores between digits are allowed, and nothing else. */
  lemma ParseExamples()
    ensures ParseInt("1_0") == Some(10)
    ensures ParseInt("") == None && ParseInt("1__0") == None && ParseInt("_1") == None && ParseInt("1_") == None
    ensures ParseInt("+-1") == None && ParseInt("1.0") == None
  {
    Unstripped("1_0"); Unstripped("1__0"); Unstripped("_1"); Unstripped("1_"); Unstripped("+-1"); Unstripped("1.0");
    var d := WithoutUnderscores("1_0");
    assert "1_0"[2..] == "0" && "0" == ['0'] && d == "10";
    assert d[..1] == "1" && "1"[..0] == "";
    assert Value("1") == 1 && Value(d) == 10;
  }

  lemma Unstripped(s: string)
    requires s != "" && !IsPythonSpace(s[0]) && !IsPythonSpace(s[|s| - 1])
    ensures StripRight(s[Span(s, IsPythonSpace)..]) == s
  {
    Stripped("", s, "");
    assert "" + s + "" == s;
  }
}
