/** Text helpers shared by the models: options, scanning, decimal printing and reading. */
module Text {

  datatype Option<+T> = None | Some(value: T)

  /** A 32-bit signed int, the range of the agent's `int` fields and of `std::stoi`. */
  predicate IsInt32(n: int) {
    -0x8000_0000 <= n < 0x8000_0000
  }

  predicate IsDigit(c: char) {
    '0' <= c <= '9'
  }

  predicate AllDigits(s: string) {
    forall i :: 0 <= i < |s| ==> IsDigit(s[i])
  }

  function DigitChar(d: nat): (c: char)
    requires d < 10
    ensures IsDigit(c) && c as int - '0' as int == d
  {
    ('0' as int + d) as char
  }

  function Digits(n: nat): string {
    if n < 10 then [DigitChar(n)] else Digits(n / 10) + [DigitChar(n % 10)]
  }

  /** Decimal text of an integer, as `std::to_wstring` and `str` print it. */
  function Decimal(n: int): string {
    if n < 0 then "-" + Digits(-n) else Digits(n)
  }

  /** The number a digit string denotes. */
  function Value(s: string): nat
    requires AllDigits(s)
  {
    if s == "" then 0
    else Value(s[..|s| - 1]) * 10 + (s[|s| - 1] as int - '0' as int)
  }

  /** Printing then reading a natural number gives it back. */
  lemma {:induction false} DigitsValue(n: nat)
    ensures Digits(n) != "" && AllDigits(Digits(n)) && Value(Digits(n)) == n
  {
    if n < 10 {
      assert Digits(n)[..0] == "";
    } else {
      DigitsValue(n / 10);
      assert Digits(n)[..|Digits(n)| - 1] == Digits(n / 10);
    }
  }

  lemma DecimalInjective(a: int, b: int)
    requires Decimal(a) == Decimal(b)
    ensures a == b
  {
    var da, db := Digits(if a < 0 then -a else a), Digits(if b < 0 then -b else b);
    DigitsValue(if a < 0 then -a else a);
    DigitsValue(if b < 0 then -b else b);
    assert IsDigit(da[0]) && IsDigit(db[0]);
    assert Decimal(a) == if a < 0 then "-" + da else da;
    assert Decimal(b) == if b < 0 then "-" + db else db;
    assert (a < 0) == (Decimal(a)[0] == '-') == (Decimal(b)[0] == '-') == (b < 0);
    if a < 0 {
      assert da == Decimal(a)[1..] == Decimal(b)[1..] == db;
    }
  }

  /** Length of the longest prefix whose characters all satisfy `p`. */
  function Span(s: string, p: char -> bool): (n: nat)
    ensures n <= |s|
    ensures forall i :: 0 <= i < n ==> p(s[i])
    ensures n < |s| ==> !p(s[n])
  {
    if s == "" || !p(s[0]) then 0 else 1 + Span(s[1..], p)
  }

  lemma SpanIs(s: string, p: char -> bool, n: nat)
    requires n <= |s| && (n < |s| ==> !p(s[n]))
    requires forall i :: 0 <= i < n ==> p(s[i])
    ensures Span(s, p) == n
  {
  }

  predicate IsSpace(c: char) {
    c == ' ' || 9 <= c as int <= 13
  }

  /** `std::stoi`: white space, a sign, then the longest run of digits; None where it throws. */
  function StoI(s: string): Option<int> {
    var t := s[Span(s, IsSpace)..];
    var u := if t != "" && (t[0] == '-' || t[0] == '+') then t[1..] else t;
    var ds := u[..Span(u, IsDigit)];
    if ds == "" then None
    else
      var n: int := if t[0] == '-' then -(Value(ds) as int) else Value(ds);
      if IsInt32(n) then Some(n) else None
  }

  lemma DigitsFirst(n: nat)
    ensures Digits(n) != "" && IsDigit(Digits(n)[0])
    ensures AllDigits(Digits(n)) && Value(Digits(n)) == n
    ensures Span(Digits(n), IsDigit) == |Digits(n)|
  {
    DigitsValue(n);
    SpanIs(Digits(n), IsDigit, |Digits(n)|);
  }

  /** Reading a printed 32-bit integer gives it back. */
  lemma StoIDecimal(n: int)
    requires IsInt32(n)
    ensures StoI(Decimal(n)) == Some(n)
  {
    hide Digits, Value, Span;
    var s := Decimal(n);
    var ds := Digits(if n < 0 then -n else n);
    DigitsFirst(if n < 0 then -n else n);
    SpanIs(s, IsSpace, 0);
    assert s[0..] == s;
    assert n < 0 ==> s[1..] == ds;
    assert ds[..|ds|] == ds;
  }

  /** Decimal texts are written from the highest digit down. */
  lemma DecimalExamples()
    ensures Decimal(0) == "0" && Decimal(120) == "120" && Decimal(-7) == "-7"
  {
    assert Digits(12) == Digits(1) + ['2'];
  }

  /** White space, one sign and the first run of digits are read; what follows is ignored. */
  lemma StoIReads(lead: string, sign: string, n: nat, rest: string)
    requires forall i :: 0 <= i < |lead| ==> lead[i] == ' ' || 9 <= lead[i] as int <= 13
    requires sign == "" || sign == "-" || sign == "+"
    requires rest != "" ==> !('0' <= rest[0] <= '9')
    ensures var value: int := if sign == "-" then -(n as int) else n;
            StoI(lead + sign + Digits(n) + rest)
            == if -0x8000_0000 <= value < 0x8000_0000 then Some(value) else None
  {
    hide Digits, Value, Span;
    DigitsFirst(n);
    var ds := Digits(n);
    var s := lead + sign + ds + rest;
    assert s[|lead|..] == sign + ds + rest;
    SpanIs(s, IsSpace, |lead|);
    var u := ds + rest;
    assert sign != "" ==> (sign + ds + rest)[1..] == u;
    assert sign == "" ==> sign + ds + rest == u;
    SpanIs(u, IsDigit, |ds|);
    assert u[..|ds|] == ds;
  }

  /** Without a digit after white space and sign, reading throws. */
  lemma StoIThrows(lead: string, rest: string)
    requires forall i :: 0 <= i < |lead| ==> lead[i] == ' ' || 9 <= lead[i] as int <= 13
    requires rest != "" ==> rest[0] != ' ' && !(9 <= rest[0] as int <= 13) && rest[0] != '-' && rest[0] != '+'
    requires rest != "" ==> !('0' <= rest[0] <= '9')
    ensures StoI(lead + rest) == None
  {
    hide Span;
    var s := lead + rest;
    SpanIs(s, IsSpace, |lead|);
    assert s[|lead|..] == rest;
    SpanIs(rest, IsDigit, 0);
  }
}
