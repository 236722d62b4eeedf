/** When exactly a state file is read back, and what one checksum says about two documents. */
module StateFileExact {
  import opened Text
  import opened FlatJson
  import opened Document
  import opened ParsedValues
  import opened StateFile
  import opened StateFileProperties

  // ---- The text fields of a state ----

  function Texts(s: UpdateState): seq<string> {
    [ s.owner, s.installerPath, s.targetVersion, s.expectedSha256, s.appExePath, s.logPath,
      s.state, s.error, s.createdAt, s.completedAt, s.checksum ]
  }

  predicate AllClosed(texts: seq<string>) {
    forall v :: v in texts ==> EscapeClosed(v)
  }

  lemma TextsClosed(s: UpdateState)
    ensures AllClosed(Texts(s)) && IsInt32(s.schema) && IsInt32(s.appPid) && IsInt32(s.attempt)
       <==> CleanState(s) && EscapeClosed(s.checksum)
  {
    hide EscapeClosed;
    var t := Texts(s);
    assert t[0] in t && t[1] in t && t[2] in t && t[3] in t && t[4] in t && t[5] in t;
    assert t[6] in t && t[7] in t && t[8] in t && t[9] in t && t[10] in t;
  }

  function AllEntries(hash: Hash, s: UpdateState): seq<Entry> {
    Entries(s) + [ChecksumEntry(hash, s)]
  }

  function Reread(hash: Hash, s: UpdateState): UpdateState {
    s.(checksum := Digest(hash, s))
  }

  /** The quoted entries of a printed state hold its texts. */
  lemma HeadTexts(s: UpdateState)
    ensures forall e :: e in HeadEntries(s) && !e.bare ==> e.value in Texts(s)
  {
    hide Decimal;
  }

  lemma HeadNumbers(s: UpdateState)
    ensures forall e :: e in HeadEntries(s) && e.bare ==> e.value == Decimal(s.schema) || e.value == Decimal(s.appPid)
  {
    hide Decimal;
  }

  lemma TailTexts(s: UpdateState)
    ensures forall e :: e in TailEntries(s) && !e.bare ==> e.value in Texts(s)
    ensures forall e :: e in TailEntries(s) && e.bare ==> e.value == Decimal(s.attempt)
  {
    hide Decimal;
  }

  lemma RereadEntries(hash: Hash, s: UpdateState)
    ensures HeadEntries(Reread(hash, s)) == HeadEntries(s) && TailEntries(Reread(hash, s)) == TailEntries(s)
  {
    hide Decimal, Digest;
  }

  lemma EntryTexts(hash: Hash, s: UpdateState)
    ensures forall e :: e in AllEntries(hash, s) && !e.bare ==> e.value in Texts(Reread(hash, s))
  {
    hide HeadEntries, TailEntries, Digest;
    var t := Reread(hash, s);
    RereadEntries(hash, s);
    HeadTexts(t);
    TailTexts(t);
    assert Texts(t)[10] in Texts(t);
  }

  // ---- Keys ----

  lemma KeysOrdinary()
    ensures Ordinary("owner") && Ordinary("installer_path") && Ordinary("msi_path")
    ensures Ordinary("target_version") && Ordinary("expected_sha256") && Ordinary("app_exe_path")
    ensures Ordinary("log_path") && Ordinary("state") && Ordinary("error")
    ensures Ordinary("created_at") && Ordinary("completed_at") && Ordinary("checksum")
  {
  }

  lemma HeadKeyClean(s: UpdateState, k: nat)
    requires k < 9
    ensures |HeadEntries(s)| == 9 && CleanKey(HeadEntries(s)[k].key)
  {
    hide HeadEntries, CleanKey, EscapeClosed;
    HeadLength(s);
    PlainIsClosed("");
    var blank := UpdateState(0, "", "", "", "", 0, "", "", "", "", "", "", 0, "");
    HeadClean(blank, k);
    SameHeadKey(s, blank, k);
  }

  lemma SameHeadKey(s: UpdateState, t: UpdateState, k: nat)
    requires k < 9 && |HeadEntries(s)| == |HeadEntries(t)| == 9
    ensures HeadEntries(s)[k].key == HeadEntries(t)[k].key
  {
    hide Decimal;
  }

  lemma HeadPrintable(s: UpdateState)
    ensures forall e :: e in HeadEntries(s) ==> CleanKey(e.key)
  {
    hide HeadEntries, CleanKey;
    HeadLength(s);
    forall e | e in HeadEntries(s) ensures CleanKey(e.key) {
      var k :| 0 <= k < |HeadEntries(s)| && HeadEntries(s)[k] == e;
      HeadKeyClean(s, k);
    }
  }

  lemma TailPrintable(s: UpdateState)
    ensures forall e :: e in TailEntries(s) ==> CleanKey(e.key)
  {
    hide Decimal;
  }

  lemma DecimalPlain(n: int)
    ensures PlainNumber(Decimal(n))
  {
    hide Digits, Value;
    DigitsFirst(if n < 0 then -n else n);
  }

  lemma EntriesPrintable(hash: Hash, s: UpdateState)
    ensures Printable(AllEntries(hash, s))
  {
    hide HeadEntries, TailEntries, Digest, PlainNumber, Decimal;
    HeadPrintable(s);
    TailPrintable(s);
    HeadNumbers(s);
    TailTexts(s);
    DecimalPlain(s.schema);
    DecimalPlain(s.appPid);
    DecimalPlain(s.attempt);
  }

  // ---- What reading a state tells of its document ----

  predicate Under(m: Object, key: string, v: string) {
    key in m && m[key] == v
  }

  ghost predicate Found(m: Object, v: string) {
    exists key :: Ordinary(key) && Under(m, key, v)
  }

  /** A text that is read and not closed stands in the document under an ordinary key. */
  lemma TextFound(m: Object, v: string)
    requires ParseUpdateState(m).Some? && v in Texts(ParseUpdateState(m).value) && !EscapeClosed(v)
    ensures Found(m, v)
  {
    hide EscapeClosed, StoI, Ordinary;
    KeysOrdinary();
    PlainIsClosed("");
    PlainIsClosed("app");
    var s := ParseUpdateState(m).value;
    assert Under(m, "owner", v) || Under(m, "installer_path", v) || Under(m, "msi_path", v)
      || Under(m, "target_version", v) || Under(m, "expected_sha256", v) || Under(m, "app_exe_path", v)
      || Under(m, "log_path", v) || Under(m, "state", v) || Under(m, "error", v)
      || Under(m, "created_at", v) || Under(m, "completed_at", v) || Under(m, "checksum", v);
  }

  lemma ReadNumbers(m: Object)
    requires ParseUpdateState(m).Some?
    ensures var s := ParseUpdateState(m).value;
            IsInt32(s.schema) && IsInt32(s.appPid) && IsInt32(s.attempt)
  {
    hide Span, Value;
  }

  predicate Prints(es: seq<Entry>, v: string) {
    exists e :: e in es && !e.bare && e.value == v
  }

  lemma HeadPrints(s: UpdateState)
    ensures Prints(HeadEntries(s), s.owner) && Prints(HeadEntries(s), s.installerPath)
    ensures Prints(HeadEntries(s), s.targetVersion) && Prints(HeadEntries(s), s.expectedSha256)
    ensures Prints(HeadEntries(s), s.appExePath) && Prints(HeadEntries(s), s.logPath)
    ensures Prints(HeadEntries(s), s.state)
  {
    hide Decimal;
    var h := HeadEntries(s);
    assert h[1] in h && h[2] in h && h[3] in h && h[4] in h && h[6] in h && h[7] in h && h[8] in h;
  }

  lemma TailPrints(s: UpdateState)
    ensures Prints(TailEntries(s), s.createdAt)
    ensures s.error != "" ==> Prints(TailEntries(s), s.error)
    ensures s.completedAt != "" ==> Prints(TailEntries(s), s.completedAt)
  {
    hide Decimal;
    var t := TailEntries(s);
    assert Entry("created_at", s.createdAt, false) in t;
    assert s.error != "" ==> Entry("error", s.error, false) in t;
    assert s.completedAt != "" ==> Entry("completed_at", s.completedAt, false) in t;
  }

  /** A text of the state is empty or the value of a quoted entry. */
  lemma TextPrinted(hash: Hash, s: UpdateState, v: string)
    requires v in Texts(Reread(hash, s)) && v != ""
    ensures Prints(AllEntries(hash, s), v)
  {
    hide HeadEntries, TailEntries, Digest;
    var es := AllEntries(hash, s);
    HeadPrints(s);
    TailPrints(s);
    assert ChecksumEntry(hash, s) in es;
    if Prints(HeadEntries(s), v) {
      var e :| e in HeadEntries(s) && !e.bare && e.value == v;
      assert e in es;
    } else if Prints(TailEntries(s), v) {
      var e :| e in TailEntries(s) && !e.bare && e.value == v;
      assert e in es;
    }
  }

  /** A state that is read back from its document has only escape-closed texts. */
  lemma ReadBackClosed(hash: Hash, s: UpdateState)
    requires ParseUpdateState(Parsed(Printed(hash, s))) == Some(Reread(hash, s))
    ensures AllClosed(Texts(Reread(hash, s)))
  {
    hide ParseUpdateState, Parsed, EscapeClosed, Digest, AllEntries, Texts, Printable, Found;
    var es, m, t := AllEntries(hash, s), Parsed(Printed(hash, s)), Reread(hash, s);
    assert Printed(hash, s) == Render(es) by { PrintedEntries(hash, s); }
    EntriesPrintable(hash, s);
    EntryTexts(hash, s);
    forall e | e in es && Open(e) ensures exists k :: k in m && Ordinary(k) && m[k] == e.value {
      TextFound(m, e.value);
      FoundMeans(m, e.value);
    }
    AllFoundAllClosed(es);
    forall v | v in Texts(t) ensures EscapeClosed(v) {
      if v == "" { PlainIsClosed(v); } else { TextPrinted(hash, s, v); }
    }
  }

  lemma PrintedEntries(hash: Hash, s: UpdateState)
    ensures Printed(hash, s) == Render(AllEntries(hash, s))
  {
  }

  lemma FoundMeans(m: Object, v: string)
    requires Found(m, v)
    ensures exists k :: k in m && Ordinary(k) && m[k] == v
  {
    hide Ordinary;
  }

  /**
   * Round trip, exactly: a printed state is read back unchanged but for its checksum if and only
   * if its integers fit 32 bits and its texts and its digest are escape-closed. Its checksum then
   * verifies, and it validates if and only if it is complete and a digest was computed.
   */
  lemma RoundTripExact(hash: Hash, s: UpdateState)
    ensures ParseUpdateState(Parsed(Printed(hash, s))) == Some(s.(checksum := Digest(hash, s)))
       <==> CleanState(s) && EscapeClosed(Digest(hash, s))
    ensures CleanState(s) && EscapeClosed(Digest(hash, s)) ==>
              && ChecksumMatches(hash, Parsed(Printed(hash, s)))
              && (Valid(hash, Parsed(Printed(hash, s))) <==> Complete(s) && Digest(hash, s) != "")
  {
    hide ParseUpdateState, Parsed, Printed, EscapeClosed, Digest, Texts, CleanState, AllClosed, Valid, Complete;
    hide ChecksumMatches;
    var t := Reread(hash, s);
    TextsClosed(t);
    RereadClean(hash, s);
    if ParseUpdateState(Parsed(Printed(hash, s))) == Some(t) {
      ReadNumbers(Parsed(Printed(hash, s)));
      ReadBackClosed(hash, s);
    }
    if CleanState(s) && EscapeClosed(Digest(hash, s)) { RoundTrip(hash, s); }
  }

  lemma RereadClean(hash: Hash, s: UpdateState)
    ensures CleanState(Reread(hash, s)) <==> CleanState(s)
  {
    hide EscapeClosed;
  }

  // ---- One checksum, two documents ----

  /** No value the checksum covers contains the separator of two printed entries. */
  predicate CoveredInseparable(m: Object) {
    forall i :: 0 <= i < |ORDER| && ORDER[i] in m ==> Inseparable(m[ORDER[i]])
  }

  lemma OrderKey(i: nat)
    requires i < |ORDER|
    ensures CleanKey(ORDER[i]) && ORDER[i] != "" && !Structural(ORDER[i][0])
  {
    hide CleanKey, Ordinary;
    KeysOrdinary();
    assert Ordinary("schema") && Ordinary("app_pid") && Ordinary("attempt") by { NumberKeysOrdinary(); }
    OrdinaryMeans(ORDER[i]);
  }

  lemma NumberKeysOrdinary()
    ensures Ordinary("schema") && Ordinary("app_pid") && Ordinary("attempt")
  {
  }

  lemma OrdinaryMeans(key: string)
    requires Ordinary(key)
    ensures CleanKey(key) && key != "" && !Structural(key[0])
  {
  }

  lemma {:induction false} CanonicalSeparable(m: Object, lo: nat)
    requires lo <= |ORDER| && CoveredInseparable(m)
    ensures forall e :: e in CanonicalFrom(m, lo) ==> Separable(e) && e.bare == IsNumberKey(e.key)
    decreases |ORDER| - lo
  {
    hide ORDER, IsNumberKey, Inseparable, CleanKey;
    if lo < |ORDER| {
      CanonicalSeparable(m, lo + 1);
      OrderKey(lo);
    }
  }

  /** The payload of inseparable values determines every covered field. */
  lemma PayloadDetermines(m: Object, n: Object)
    requires CoveredInseparable(m) && CoveredInseparable(n) && Payload(m) == Payload(n)
    ensures Covered(m, 0) == Covered(n, 0)
  {
    hide ORDER, IsNumberKey, Separable, CoveredInseparable, Body, CanonicalFrom, Position;
    var a, b := CanonicalFrom(m, 0), CanonicalFrom(n, 0);
    CanonicalSeparable(m, 0);
    CanonicalSeparable(n, 0);
    assert Payload(m)[1..] == Body(a) + "}" && Payload(n)[1..] == Body(b) + "}";
    BodyInjective(a, b);
    LoadCanonical(m, 0, map[]);
    LoadCanonical(n, 0, map[]);
    assert map[] + Covered(m, 0) == Covered(m, 0) && map[] + Covered(n, 0) == Covered(n, 0);
  }

  /**
   * For an injective hash, any two documents accepted with one checksum agree on every covered
   * key, whatever their texts.
   */
  lemma SameChecksumSameDocument(hash: Hash, a: string, b: string)
    requires forall x, y :: hash(x) == hash(y) ==> x == y
    requires ChecksumMatches(hash, Parsed(a)) && ChecksumMatches(hash, Parsed(b))
    requires Parsed(a)["checksum"] == Parsed(b)["checksum"]
    ensures Covered(Parsed(a), 0) == Covered(Parsed(b), 0)
  {
    hide Payload, Parsed, Inseparable, ORDER, Covered;
    ValuesInseparable(a);
    ValuesInseparable(b);
    PayloadDetermines(Parsed(a), Parsed(b));
  }

  /** So do two maps, as long as no covered value contains a comma followed by a quote. */
  lemma SameChecksumSameFields(hash: Hash, m: Object, n: Object)
    requires forall x, y :: hash(x) == hash(y) ==> x == y
    requires CoveredInseparable(m) && CoveredInseparable(n)
    requires ChecksumMatches(hash, m) && ChecksumMatches(hash, n) && m["checksum"] == n["checksum"]
    ensures Covered(m, 0) == Covered(n, 0)
  {
    hide Payload, CoveredInseparable, Covered;
    PayloadDetermines(m, n);
  }

  /** Maps that are not a document's can collide: a separator inside a value reads as two fields. */
  lemma SeparatorCollides()
    ensures var m, n := map["owner" := "a\",\"state\":\"b"], map["owner" := "a", "state" := "b"];
            Payload(m) == Payload(n) && Covered(m, 0) != Covered(n, 0)
  {
    var m, n := map["owner" := "a\",\"state\":\"b"], map["owner" := "a", "state" := "b"];
    hide Payload, Covered;
    CollidingPayloads(m, n);
    StateCovered(m);
    StateCovered(n);
  }

  lemma StateCovered(m: Object)
    ensures "state" in Covered(m, 0) <==> "state" in m
  {
    hide ORDER;
    OrderSize();
    assert Position("state") == 8;
  }

  lemma CollidingPayloads(m: Object, n: Object)
    requires m == map["owner" := "a\",\"state\":\"b"] && n == map["owner" := "a", "state" := "b"]
    ensures Payload(m) == Payload(n)
  {
    hide CanonicalFrom, Body, Position, ORDER, Ordered, NoneFrom;
    var a := [Entry("owner", "a\",\"state\":\"b", false)];
    var b := [Entry("owner", "a", false), Entry("state", "b", false)];
    ListsOrdered(a, b);
    assert Load(a, map[]) == m;
    assert b[1..][1..] == [] && Load(b, map[]) == n;
    CanonicalOfLoad(a, map[], 0);
    CanonicalOfLoad(b, map[], 0);
    CollidingBodies(a, b);
  }

  lemma CollidingBodies(a: seq<Entry>, b: seq<Entry>)
    requires a == [Entry("owner", "a\",\"state\":\"b", false)]
    requires b == [Entry("owner", "a", false), Entry("state", "b", false)]
    ensures Body(a) == Body(b)
  {
    assert b[1..] == [b[1]];
    assert EntryText(b[0]) == "\"owner\":\"a\"" && EntryText(b[1]) == "\"state\":\"b\"";
    assert EntryText(a[0]) == EntryText(b[0]) + "," + EntryText(b[1]);
  }

  lemma ListsOrdered(a: seq<Entry>, b: seq<Entry>)
    requires |a| == 1 && a[0].key == "owner" && !a[0].bare
    requires |b| == 2 && b[0].key == "owner" && !b[0].bare && b[1].key == "state" && !b[1].bare
    ensures Ordered(a, 0) && Ordered(b, 0) && NoneFrom(map[], 0)
  {
    assert a[1..] == [] && b[1..][1..] == [] && b[1..][0] == b[1];
    assert Ordered([], 2) && Ordered([], 9);
    assert Ordered(b[1..], 2);
  }
}
