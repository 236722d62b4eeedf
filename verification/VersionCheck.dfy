/** The post-install version check of the update agent (version_checker.cpp). */
module VersionCheck {
  import opened Text

  /** The four 16-bit words of a file version. */
  datatype FileVersion = FileVersion(major: nat, minor: nat, build: nat, revision: nat)

  function ShortText(v: FileVersion): string {
    Digits(v.major) + "." + Digits(v.minor) + "." + Digits(v.build)
  }

  /** GetFileVersion's text. */
  function FullText(v: FileVersion): string {
    ShortText(v) + "." + Digits(v.revision)
  }

  predicate NotDot(c: char) { c != '.' }

  function Dots(s: string): nat {
    if s == "" then 0 else (if s[0] == '.' then 1 else 0) + Dots(s[1..])
  }

  /** The text before the k-th dot, or all of it when there are fewer dots. */
  function BeforeDot(s: string, k: nat): string {
    if s == "" || k == 0 then ""
    else if s[0] == '.' then (if k == 1 then "" else "." + BeforeDot(s[1..], k - 1))
    else [s[0]] + BeforeDot(s[1..], k)
  }

  function Normalised(expected: string): string {
    if expected != "" && expected[0] == 'v' then expected[1..] else expected
  }

  /** When the check accepts; `actual` is None when the file or its version cannot be read. */
  predicate Accepts(actual: Option<FileVersion>, expected: string) {
    actual.Some? &&
    (|| FullText(actual.value) == Normalised(expected)
     || (Dots(Normalised(expected)) >= 3 && BeforeDot(Normalised(expected), 3) == ShortText(actual.value)))
  }

  // ---- The code's loops ----

  method DotCount(s: string) returns (count: nat)
    ensures count == Dots(s)
  {
    count := 0;
    var i := 0;
    while i < |s|
      invariant 0 <= i <= |s| && count + Dots(s[i..]) == Dots(s)
    {
      assert s[i..][1..] == s[i + 1..];
      if s[i] == '.' { count := count + 1; }
      i := i + 1;
    }
  }

  lemma BeforeDotStep(s: string, i: nat, k: nat)
    requires i < |s| && k > 0
    ensures s[..i] + BeforeDot(s[i..], k) ==
            if s[i] == '.' && k == 1 then s[..i]
            else s[..i + 1] + BeforeDot(s[i + 1..], if s[i] == '.' then k - 1 else k)
  {
    assert s[i..][1..] == s[i + 1..];
    assert s[..i + 1] == s[..i] + [s[i]];
  }

  lemma BeforeDotEnds(s: string, k: nat)
    ensures s[..0] + BeforeDot(s[0..], k) == BeforeDot(s, k)
    ensures s[..|s|] + BeforeDot(s[|s|..], k) == s
  {
    assert s[0..] == s;
  }

  /** The text before the third dot, scanned from the left. */
  method ExtractMajorMinorPatch(s: string) returns (text: string)
    ensures text == BeforeDot(s, 3)
  {
    hide BeforeDot;
    var dots, i := 0, 0;
    BeforeDotEnds(s, 3);
    while i < |s|
      invariant 0 <= i <= |s| && 0 <= dots < 3
      invariant s[..i] + BeforeDot(s[i..], 3 - dots) == BeforeDot(s, 3)
    {
      BeforeDotStep(s, i, 3 - dots);
      if s[i] == '.' {
        dots := dots + 1;
        if dots >= 3 { return s[..i]; }
      }
      i := i + 1;
    }
    BeforeDotEnds(s, 3 - dots);
    text := s;
  }

  /** VerifyInstalledVersion; `exists` and `read` answer for the file and its version resource. */
  method VerifyInstalledVersion(fileExists: bool, read: Option<FileVersion>, expected: string) returns (ok: bool)
    ensures ok == (fileExists && Accepts(read, expected))
  {
    hide Digits, BeforeDot, Dots;
    if !fileExists { return false; }
    if read.None? { return false; }
    var actual := FullText(read.value);
    FullTextDots(read.value);
    var normalized := expected;
    if normalized != "" && normalized[0] == 'v' { normalized := normalized[1..]; }
    if actual == normalized { return true; }
    var actualDots := DotCount(actual);
    var expectedDots := DotCount(normalized);
    if actualDots >= 3 && expectedDots >= 3 {
      var a := ExtractMajorMinorPatch(actual);
      var b := ExtractMajorMinorPatch(normalized);
      return a == b;
    }
    ok := false;
  }

  // ---- What acceptance means ----

  predicate DotFree(s: string) {
    forall i :: 0 <= i < |s| ==> s[i] != '.'
  }

  lemma DigitsDotFree(n: nat)
    ensures DotFree(Digits(n)) && Digits(n) != "" && Digits(n)[0] != 'v'
  {
    hide Digits, Value;
    DigitsFirst(n);
  }

  lemma {:induction false} DotsAfterWord(d: string, rest: string)
    requires DotFree(d)
    ensures Dots(d + "." + rest) == 1 + Dots(rest)
  {
    var s := d + "." + rest;
    if d == "" {
      assert s[1..] == rest;
    } else {
      assert s[0] == d[0] && s[1..] == d[1..] + "." + rest;
      DotsAfterWord(d[1..], rest);
    }
  }

  lemma {:induction false} AfterWord(d: string, rest: string, k: nat)
    requires DotFree(d) && k > 0
    ensures BeforeDot(d + "." + rest, k) == d + (if k == 1 then "" else "." + BeforeDot(rest, k - 1))
  {
    var s := d + "." + rest;
    if d == "" {
      assert s[1..] == rest;
    } else {
      assert s[0] == d[0] && s[1..] == d[1..] + "." + rest;
      AfterWord(d[1..], rest, k);
      assert d == [d[0]] + d[1..];
    }
  }

  lemma {:induction false} LastWord(d: string, k: nat)
    requires DotFree(d) && k > 0
    ensures Dots(d) == 0 && BeforeDot(d, k) == d
  {
    if d != "" {
      LastWord(d[1..], k);
      assert d == [d[0]] + d[1..];
    }
  }

  /** A printed version has three dots, and its text before the third is major.minor.build. */
  lemma FullTextDots(v: FileVersion)
    ensures Dots(FullText(v)) == 3 && BeforeDot(FullText(v), 3) == ShortText(v)
  {
    hide Digits, Dots, BeforeDot;
    var a, b, c, d := Digits(v.major), Digits(v.minor), Digits(v.build), Digits(v.revision);
    DigitsDotFree(v.major); DigitsDotFree(v.minor); DigitsDotFree(v.build); DigitsDotFree(v.revision);
    assert FullText(v) == a + "." + (b + "." + (c + "." + d));
    AfterWord(a, b + "." + (c + "." + d), 3);
    AfterWord(b, c + "." + d, 2);
    AfterWord(c, d, 1);
    DotsAfterWord(a, b + "." + (c + "." + d)); DotsAfterWord(b, c + "." + d); DotsAfterWord(c, d);
    LastWord(d, 1);
    assert ShortText(v) == a + ("." + (b + ("." + c)));
  }

  /** Two words joined by a dot determine the first word and the rest. */
  lemma WordsInjective(a: string, b: string, x: string, y: string)
    requires DotFree(a) && DotFree(b) && a + "." + x == b + "." + y
    ensures a == b && x == y
  {
    var s := a + "." + x;
    SpanIs(s, NotDot, |a|);
    SpanIs(b + "." + y, NotDot, |b|);
    assert a == s[..|a|] == (b + "." + y)[..|b|] == b;
    assert x == s[|a| + 1..] == (b + "." + y)[|b| + 1..] == y;
  }

  lemma DigitsInjective(m: nat, n: nat)
    requires Digits(m) == Digits(n)
    ensures m == n
  {
    DigitsValue(m);
    DigitsValue(n);
  }

  lemma ShortTextInjective(v: FileVersion, w: FileVersion)
    requires ShortText(v) == ShortText(w)
    ensures v.major == w.major && v.minor == w.minor && v.build == w.build
  {
    hide Digits;
    DigitsDotFree(v.major); DigitsDotFree(v.minor);
    DigitsDotFree(w.major); DigitsDotFree(w.minor);
    assert ShortText(v) == Digits(v.major) + "." + (Digits(v.minor) + "." + Digits(v.build));
    assert ShortText(w) == Digits(w.major) + "." + (Digits(w.minor) + "." + Digits(w.build));
    WordsInjective(Digits(v.major), Digits(w.major),
                   Digits(v.minor) + "." + Digits(v.build), Digits(w.minor) + "." + Digits(w.build));
    WordsInjective(Digits(v.minor), Digits(w.minor), Digits(v.build), Digits(w.build));
    DigitsInjective(v.major, w.major);
    DigitsInjective(v.minor, w.minor);
    DigitsInjective(v.build, w.build);
  }

  /** For four-part versions, with or without a leading 'v', acceptance is equality of the first three. */
  lemma AcceptsFourParts(v: FileVersion, w: FileVersion, prefixed: bool)
    ensures Accepts(Some(v), (if prefixed then "v" else "") + FullText(w))
       <==> v.major == w.major && v.minor == w.minor && v.build == w.build
  {
    hide Digits, Dots, BeforeDot;
    var e := (if prefixed then "v" else "") + FullText(w);
    DigitsDotFree(w.major);
    assert FullText(w)[0] == Digits(w.major)[0] != 'v';
    assert prefixed ==> e[1..] == FullText(w);
    assert !prefixed ==> e == FullText(w);
    assert Normalised(e) == FullText(w);
    FullTextDots(w);
    FullTextDots(v);
    if ShortText(v) == ShortText(w) { ShortTextInjective(v, w); }
  }

  /** A string with fewer than three dots is accepted only if it is the full version text, so never. */
  lemma ShortVersionRejected(v: FileVersion, expected: string)
    requires Dots(Normalised(expected)) < 3
    ensures !Accepts(Some(v), expected)
  {
    hide Digits, BeforeDot;
    FullTextDots(v);
  }

  /** A text reaches its third dot exactly after the text before it. */
  lemma {:induction false} DotsReached(s: string, k: nat)
    requires k > 0
    ensures Dots(s) >= k <==> BeforeDot(s, k) + "." <= s
    ensures BeforeDot(s, k) <= s
  {
    if s != "" {
      DotsReached(s[1..], k);
      if k > 1 { DotsReached(s[1..], k - 1); }
      assert s == [s[0]] + s[1..];
      var j := if s[0] == '.' then k - 1 else k;
      if s[0] == '.' && k == 1 {
        assert BeforeDot(s, k) + "." == "." <= s;
      } else {
        Behead(s, [s[0]] + BeforeDot(s[1..], j), BeforeDot(s[1..], j));
        assert BeforeDot(s, k) == [s[0]] + BeforeDot(s[1..], j);
      }
    }
  }

  lemma Behead(s: string, p: string, q: string)
    requires s != "" && p == [s[0]] + q
    ensures p + "." <= s <==> q + "." <= s[1..]
    ensures p <= s <==> q <= s[1..]
  {
    assert s == [s[0]] + s[1..];
    assert p + "." == [s[0]] + (q + ".");
    if p + "." <= s { assert (p + ".")[1..] == q + "." && s[..|p| + 1][1..] == s[1..][..|q| + 1]; }
    if p <= s { assert p[1..] == q && s[..|p|][1..] == s[1..][..|q|]; }
  }

  /** A text that goes on after three words and two dots with a dot has them before its third dot. */
  lemma BeforeThird(v: FileVersion, rest: string)
    ensures BeforeDot(ShortText(v) + "." + rest, 3) == ShortText(v) && Dots(ShortText(v) + "." + rest) >= 3
  {
    hide Digits, Dots, BeforeDot;
    var a, b, c := Digits(v.major), Digits(v.minor), Digits(v.build);
    DigitsDotFree(v.major); DigitsDotFree(v.minor); DigitsDotFree(v.build);
    assert ShortText(v) + "." + rest == a + "." + (b + "." + (c + "." + rest));
    AfterWord(a, b + "." + (c + "." + rest), 3);
    AfterWord(b, c + "." + rest, 2);
    AfterWord(c, rest, 1);
    DotsAfterWord(a, b + "." + (c + "." + rest)); DotsAfterWord(b, c + "." + rest); DotsAfterWord(c, rest);
    assert ShortText(v) == a + ("." + (b + ("." + c)));
  }

  /**
   * For every expected string: it is accepted exactly if, after at most one leading 'v', it begins
   * with the installed major, minor and build numbers and a dot; what follows does not matter.
   */
  lemma AcceptsExactly(v: FileVersion, expected: string)
    ensures Accepts(Some(v), expected) <==>
              ShortText(v) + "." <= expected || "v" + ShortText(v) + "." <= expected
    ensures !Accepts(None, expected)
  {
    hide Digits, Dots, BeforeDot;
    var e, short := Normalised(expected), ShortText(v);
    DigitsDotFree(v.major);
    assert short[0] == Digits(v.major)[0] != 'v';
    assert (short + ".")[0] == short[0] && ("v" + short + ".")[0] == 'v';
    assert ("v" + short + ".")[1..] == short + ".";
    assert short + "." <= e <==> short + "." <= expected || "v" + short + "." <= expected by {
      if expected != "" && expected[0] == 'v' { Behead2(expected, short + "."); }
    }
    DotsReached(e, 3);
    if short + "." <= e {
      assert e == short + "." + e[|short| + 1..];
      BeforeThird(v, e[|short| + 1..]);
    }
    if FullText(v) == e { assert short + "." <= e; }
  }

  lemma Behead2(s: string, p: string)
    requires s != "" && p != "" && s[0] != p[0]
    ensures !(p <= s) && ([s[0]] + p <= s <==> p <= s[1..])
  {
    assert s == [s[0]] + s[1..];
    if [s[0]] + p <= s { assert ([s[0]] + p)[1..] == p && s[..|p| + 1][1..] == s[1..][..|p|]; }
  }

  /** The order of the numbers in a printed version. */
  lemma VersionExample()
    ensures FullText(FileVersion(5, 6, 0, 23)) == "5.6.0.23" && ShortText(FileVersion(5, 6, 0, 23)) == "5.6.0"
  {
    assert Digits(23) == Digits(2) + ['3'] && Digits(2) == ['2'];
  }
}
