/** What the state-file reader, writer and checksum guarantee together. */
module StateFileProperties {
  import opened Text
  import opened FlatJson
  import opened Document
  import opened StateFile

  // ---- Lists of entries in canonical order ----

  /** The keys of `es` are canonical keys at increasing positions, none below `lo`. */
  predicate Ordered(es: seq<Entry>, lo: nat) {
    es == [] ||
    (var p := Position(es[0].key);
     lo <= p < |ORDER| && es[0].bare == IsNumberKey(es[0].key) && Ordered(es[1..], p + 1))
  }

  lemma {:induction false} LoadKeys(es: seq<Entry>, acc: Object)
    ensures Load(es, acc).Keys == acc.Keys + Keys(es)
  {
    if es != [] {
      LoadKeys(es[1..], acc[es[0].key := es[0].value]);
      assert Keys(es) == {es[0].key} + Keys(es[1..]) by {
        forall k ensures k in Keys(es) <==> k in {es[0].key} + Keys(es[1..]) {
          if k in Keys(es) {
            var e :| e in es && e.key == k;
            assert e == es[0] || e in es[1..];
          }
        }
      }
    }
  }

  lemma {:induction false} OrderedPositions(es: seq<Entry>, lo: nat)
    requires Ordered(es, lo)
    ensures forall k :: k in Keys(es) ==> lo <= Position(k) < |ORDER|
  {
    hide Position, ORDER;
    if es != [] {
      OrderedPositions(es[1..], Position(es[0].key) + 1);
      forall k | k in Keys(es) ensures lo <= Position(k) < |ORDER| {
        var e :| e in es && e.key == k;
        if e != es[0] { assert k in Keys(es[1..]); }
      }
    }
  }

  lemma {:induction false} LoadKeeps(es: seq<Entry>, acc: Object, key: string)
    requires key in acc && key !in Keys(es)
    ensures key in Load(es, acc) && Load(es, acc)[key] == acc[key]
  {
    if es != [] {
      assert es[0].key in Keys(es);
      assert Keys(es[1..]) <= Keys(es);
      LoadKeeps(es[1..], acc[es[0].key := es[0].value], key);
    }
  }

  /** In an ordered list every entry's value is the one the map holds. */
  lemma {:induction false} LoadValue(es: seq<Entry>, acc: Object, lo: nat, i: nat)
    requires Ordered(es, lo) && i < |es|
    ensures es[i].key in Load(es, acc) && Load(es, acc)[es[i].key] == es[i].value
  {
    hide Position, ORDER, IsNumberKey;
    var acc' := acc[es[0].key := es[0].value];
    if i == 0 {
      OrderedPositions(es[1..], Position(es[0].key) + 1);
      LoadKeeps(es[1..], acc', es[0].key);
    } else {
      LoadValue(es[1..], acc', Position(es[0].key) + 1, i - 1);
    }
  }

  lemma {:induction false} LoadSnoc(es: seq<Entry>, e: Entry, acc: Object)
    ensures Load(es + [e], acc) == Load(es, acc)[e.key := e.value]
  {
    if es == [] {
      assert es + [e] == [e];
    } else {
      assert (es + [e])[1..] == es[1..] + [e];
      LoadSnoc(es[1..], e, acc[es[0].key := es[0].value]);
    }
  }

  predicate NoneFrom(m: Object, lo: nat) {
    forall i :: lo <= i < |ORDER| ==> ORDER[i] !in m
  }

  /** Rebuilding the canonical list from the map of an ordered list gives the list back. */
  lemma {:induction false} CanonicalOfLoad(es: seq<Entry>, acc: Object, lo: nat)
    requires Ordered(es, lo) && lo <= |ORDER| && NoneFrom(acc, lo)
    ensures CanonicalFrom(Load(es, acc), lo) == es
    decreases |ORDER| - lo
  {
    hide Position, ORDER, IsNumberKey, NoneFrom;
    if lo == |ORDER| {
      NothingAtEnd(es);
    } else if es != [] && Position(es[0].key) == lo {
      LoadValue(es, acc, lo, 0);
      NoneAfter(acc, lo, es[0].value);
      CanonicalOfLoad(es[1..], acc[es[0].key := es[0].value], lo + 1);
    } else {
      SkipsPosition(es, acc, lo);
      CanonicalOfLoad(es, acc, lo + 1);
    }
  }

  lemma NothingAtEnd(es: seq<Entry>)
    requires Ordered(es, |ORDER|)
    ensures es == []
  {
    hide Position, ORDER;
  }

  lemma NoneAfter(acc: Object, lo: nat, value: string)
    requires lo < |ORDER| && NoneFrom(acc, lo)
    ensures NoneFrom(acc[ORDER[lo] := value], lo + 1)
  {
    hide Position, ORDER;
    PositionOfOrder(lo);
    forall i | lo + 1 <= i < |ORDER| ensures ORDER[i] !in acc[ORDER[lo] := value] { PositionOfOrder(i); }
  }

  lemma SkipsPosition(es: seq<Entry>, acc: Object, lo: nat)
    requires lo < |ORDER| && Ordered(es, lo) && NoneFrom(acc, lo)
    requires es != [] ==> Position(es[0].key) != lo
    ensures Ordered(es, lo + 1) && NoneFrom(acc, lo + 1)
    ensures ORDER[lo] !in Load(es, acc)
  {
    hide Position, ORDER, IsNumberKey;
    LoadKeys(es, acc);
    OrderedPositions(es, lo + 1);
    PositionOfOrder(lo);
  }

  lemma {:induction false} CanonicalIgnores(m: Object, key: string, value: string, lo: nat)
    requires lo <= |ORDER| && Position(key) == |ORDER|
    ensures CanonicalFrom(m[key := value], lo) == CanonicalFrom(m, lo)
    decreases |ORDER| - lo
  {
    hide Position, ORDER, IsNumberKey;
    if lo < |ORDER| {
      PositionOfOrder(lo);
      CanonicalIgnores(m, key, value, lo + 1);
    }
  }

  // ---- Round trip of a printed state ----

  /** Every string of the state is escape-closed and every integer fits its field. */
  predicate CleanState(s: UpdateState) {
    && IsInt32(s.schema) && IsInt32(s.appPid) && IsInt32(s.attempt)
    && EscapeClosed(s.owner) && EscapeClosed(s.installerPath) && EscapeClosed(s.targetVersion)
    && EscapeClosed(s.expectedSha256) && EscapeClosed(s.appExePath) && EscapeClosed(s.logPath)
    && EscapeClosed(s.state) && EscapeClosed(s.error) && EscapeClosed(s.createdAt)
    && EscapeClosed(s.completedAt)
  }

  /** What validation asks of the fields of a printed state. */
  predicate Complete(s: UpdateState) {
    && s.schema <= 1 && s.state in STATES
    && s.installerPath != "" && s.targetVersion != "" && s.expectedSha256 != ""
    && s.appExePath != "" && s.logPath != "" && s.createdAt != ""
  }

  lemma PositionsOfTail()
    ensures Position("error") == 9 && Position("created_at") == 10
    ensures Position("completed_at") == 11 && Position("attempt") == 12
    ensures Position("checksum") == |ORDER| && Position("msi_path") == |ORDER|
    ensures !IsNumberKey("error") && !IsNumberKey("created_at") && !IsNumberKey("completed_at")
    ensures IsNumberKey("attempt")
  {
  }

  lemma TailOrdered(s: UpdateState)
    ensures Ordered(TailEntries(s), 9)
  {
    hide Position, IsNumberKey, ORDER;
    PositionsOfTail();
    OrderSize();
    var es := TailEntries(s);
    assert es[|es| - 1..] == [Entry("attempt", Decimal(s.attempt), true)];
    assert Ordered(es[|es| - 1..], 11);
    if s.completedAt != "" {
      assert es[|es| - 2..][1..] == es[|es| - 1..];
      assert Ordered(es[|es| - 1..], 12);
      assert Ordered(es[|es| - 2..], 11);
    }
    var c := if s.error == "" then 0 else 1;
    assert es[c..][1..] == if s.completedAt == "" then es[|es| - 1..] else es[|es| - 2..];
    assert Ordered(es[c..], 10) && Ordered(es[c..], 9);
    if s.error != "" {
      assert es[0].key == "error";
    }
    assert es[0..] == es;
  }

  lemma OrderSize()
    ensures |ORDER| == 13
  {
  }

  lemma HeadOrderedFrom(s: UpdateState, k: nat)
    requires k <= 9
    ensures Ordered(HeadEntries(s)[k..] + TailEntries(s), k)
    decreases 9 - k
  {
    hide Decimal, TailEntries, Position, IsNumberKey, ORDER;
    var es := HeadEntries(s)[k..] + TailEntries(s);
    if k == 9 {
      TailOrdered(s);
      assert es == TailEntries(s);
    } else {
      HeadOrderedFrom(s, k + 1);
      HeadKeys(s, k);
      assert es[1..] == HeadEntries(s)[k + 1..] + TailEntries(s);
    }
  }

  lemma HeadKeys(s: UpdateState, k: nat)
    requires k < 9
    ensures |HeadEntries(s)| == 9
    ensures Position(HeadEntries(s)[k].key) == k < |ORDER|
    ensures HeadEntries(s)[k].bare == IsNumberKey(HeadEntries(s)[k].key)
  {
    hide Decimal;
  }

  lemma EntriesOrdered(s: UpdateState)
    ensures Ordered(Entries(s), 0)
  {
    hide HeadEntries, TailEntries, Position, IsNumberKey, ORDER;
    HeadOrderedFrom(s, 0);
    assert HeadEntries(s)[0..] == HeadEntries(s);
  }

  lemma DecimalIsClean(n: int)
    ensures CleanNumber(Decimal(n))
  {
    hide Digits, Value;
    DigitsFirst(if n < 0 then -n else n);
  }

  lemma HeadClean(s: UpdateState, k: nat)
    requires k < 9 && CleanState(s)
    ensures |HeadEntries(s)| == 9 && Clean(HeadEntries(s)[k])
  {
    hide Decimal, EscapeClosed, CleanNumber;
    DecimalIsClean(s.schema);
    DecimalIsClean(s.appPid);
  }

  lemma EntriesClean(s: UpdateState)
    requires CleanState(s)
    ensures AllClean(Entries(s))
  {
    hide Decimal, EscapeClosed, CleanNumber, HeadEntries;
    HeadLength(s);
    DecimalIsClean(s.attempt);
    forall i | 0 <= i < |Entries(s)| ensures Clean(Entries(s)[i]) {
      if i < 9 {
        HeadClean(s, i);
      } else {
        assert Entries(s)[i] in TailEntries(s);
      }
    }
  }

  /** The map a printed state denotes, without its checksum. */
  function StateMap(s: UpdateState): Object {
    Load(Entries(s), map[])
  }

  lemma StateValue(s: UpdateState, i: nat)
    requires i < |Entries(s)|
    ensures Entries(s)[i].key in StateMap(s) && StateMap(s)[Entries(s)[i].key] == Entries(s)[i].value
  {
    hide Entries, Ordered;
    EntriesOrdered(s);
    LoadValue(Entries(s), map[], 0, i);
  }

  predicate Holds(m: Object, key: string, value: string) {
    key in m && m[key] == value
  }

  lemma HeadValues(s: UpdateState)
    ensures Holds(StateMap(s), "schema", Decimal(s.schema)) && Holds(StateMap(s), "owner", s.owner)
    ensures Holds(StateMap(s), "installer_path", s.installerPath)
    ensures Holds(StateMap(s), "target_version", s.targetVersion)
    ensures Holds(StateMap(s), "expected_sha256", s.expectedSha256)
    ensures Holds(StateMap(s), "app_pid", Decimal(s.appPid))
    ensures Holds(StateMap(s), "app_exe_path", s.appExePath)
    ensures Holds(StateMap(s), "log_path", s.logPath) && Holds(StateMap(s), "state", s.state)
  {
    hide StateMap, Decimal, TailEntries;
    StateValue(s, 0); StateValue(s, 1); StateValue(s, 2);
    StateValue(s, 3); StateValue(s, 4); StateValue(s, 5);
    StateValue(s, 6); StateValue(s, 7); StateValue(s, 8);
  }

  lemma TailValues(s: UpdateState)
    ensures Holds(StateMap(s), "created_at", s.createdAt)
    ensures Holds(StateMap(s), "attempt", Decimal(s.attempt))
    ensures if s.error == "" then "error" !in StateMap(s) else Holds(StateMap(s), "error", s.error)
    ensures if s.completedAt == "" then "completed_at" !in StateMap(s)
            else Holds(StateMap(s), "completed_at", s.completedAt)
  {
    hide StateMap, Decimal, HeadEntries, Position;
    HeadLength(s);
    var e := if s.error == "" then 0 else 1;
    var c := if s.completedAt == "" then 0 else 1;
    if e == 1 { StateValue(s, 9); }
    StateValue(s, 9 + e);
    if c == 1 { StateValue(s, 10 + e); }
    StateValue(s, 10 + e + c);
    AbsentKeys(s);
  }

  lemma AbsentKeys(s: UpdateState)
    ensures s.error == "" ==> "error" !in StateMap(s)
    ensures s.completedAt == "" ==> "completed_at" !in StateMap(s)
  {
    hide Decimal, HeadEntries, Position;
    PositionsOfTail();
    LoadKeys(Entries(s), map[]);
    HeadLength(s);
    forall e | e in Entries(s)
      ensures s.error == "" ==> e.key != "error"
      ensures s.completedAt == "" ==> e.key != "completed_at"
    {
      var i :| 0 <= i < |Entries(s)| && Entries(s)[i] == e;
      if i < 9 { HeadKeys(s, i); }
    }
  }

  /** A printed document parses to the state's map with the checksum added. */
  lemma ParsePrinted(hash: Hash, s: UpdateState)
    requires CleanState(s) && EscapeClosed(Digest(hash, s))
    ensures Parsed(Printed(hash, s)) == StateMap(s)["checksum" := Digest(hash, s)]
  {
    hide Entries, Digest, EscapeClosed, Parsed, Load;
    var e := ChecksumEntry(hash, s);
    EntriesClean(s);
    assert Clean(e);
    ParseRender(Entries(s) + [e]);
    LoadSnoc(Entries(s), e, map[]);
  }

  /** The checksum of a printed document covers exactly the payload the writer hashed. */
  lemma PayloadOfPrinted(s: UpdateState, digest: string)
    ensures Payload(StateMap(s)["checksum" := digest]) == Render(Entries(s))
  {
    hide Entries, Position, ORDER, IsNumberKey;
    EntriesOrdered(s);
    CanonicalOfLoad(Entries(s), map[], 0);
    PositionsOfTail();
    CanonicalIgnores(StateMap(s), "checksum", digest, 0);
  }

  /** `m` holds the printed values of `s` and the checksum `digest`. */
  predicate Denotes(m: Object, s: UpdateState, digest: string) {
    && Holds(m, "schema", Decimal(s.schema)) && Holds(m, "owner", s.owner)
    && Holds(m, "installer_path", s.installerPath) && Holds(m, "target_version", s.targetVersion)
    && Holds(m, "expected_sha256", s.expectedSha256) && Holds(m, "app_pid", Decimal(s.appPid))
    && Holds(m, "app_exe_path", s.appExePath) && Holds(m, "log_path", s.logPath)
    && Holds(m, "state", s.state) && Holds(m, "created_at", s.createdAt)
    && Holds(m, "attempt", Decimal(s.attempt)) && Holds(m, "checksum", digest)
    && (if s.error == "" then "error" !in m else Holds(m, "error", s.error))
    && (if s.completedAt == "" then "completed_at" !in m else Holds(m, "completed_at", s.completedAt))
  }

  lemma PrintedDenotes(hash: Hash, s: UpdateState)
    requires CleanState(s) && EscapeClosed(Digest(hash, s))
    ensures Denotes(Parsed(Printed(hash, s)), s, Digest(hash, s))
  {
    hide Parsed, Printed, Digest, Decimal, StateMap, EscapeClosed, Holds;
    ParsePrinted(hash, s);
    HeadValues(s);
    TailValues(s);
    var d, n := Digest(hash, s), StateMap(s);
    StillHolds(n, "schema", Decimal(s.schema), d); StillHolds(n, "owner", s.owner, d);
    StillHolds(n, "installer_path", s.installerPath, d); StillHolds(n, "target_version", s.targetVersion, d);
    StillHolds(n, "expected_sha256", s.expectedSha256, d); StillHolds(n, "app_pid", Decimal(s.appPid), d);
    StillHolds(n, "app_exe_path", s.appExePath, d); StillHolds(n, "log_path", s.logPath, d);
    StillHolds(n, "state", s.state, d); StillHolds(n, "created_at", s.createdAt, d);
    StillHolds(n, "attempt", Decimal(s.attempt), d);
    if s.error != "" { StillHolds(n, "error", s.error, d); }
    if s.completedAt != "" { StillHolds(n, "completed_at", s.completedAt, d); }
  }

  lemma StillHolds(m: Object, key: string, value: string, digest: string)
    requires Holds(m, key, value) && key != "checksum"
    ensures Holds(m["checksum" := digest], key, value)
    ensures Holds(m["checksum" := digest], "checksum", digest)
  {
  }

  lemma DenotedState(m: Object, s: UpdateState, digest: string)
    requires Denotes(m, s, digest) && IsInt32(s.schema) && IsInt32(s.appPid) && IsInt32(s.attempt)
    ensures ParseUpdateState(m) == Some(s.(checksum := digest))
  {
    hide Decimal, StoI;
    StoIDecimal(s.schema);
    StoIDecimal(s.appPid);
    StoIDecimal(s.attempt);
  }

  lemma DecimalNotEmpty(n: int)
    ensures Decimal(n) != ""
  {
    hide Digits;
    DigitsFirst(if n < 0 then -n else n);
  }

  predicate FieldsFilled(m: Object) {
    forall i :: 0 <= i < |REQUIRED| ==> FieldOk(m, REQUIRED[i])
  }

  lemma FieldsFilledMeans(m: Object)
    ensures FieldsFilled(m) <==>
      && FieldOk(m, "schema") && FieldOk(m, "installer_path") && FieldOk(m, "target_version")
      && FieldOk(m, "expected_sha256") && FieldOk(m, "app_pid") && FieldOk(m, "app_exe_path")
      && FieldOk(m, "log_path") && FieldOk(m, "state") && FieldOk(m, "created_at")
      && FieldOk(m, "attempt") && FieldOk(m, "checksum")
  {
    hide FieldOk, REQUIRED;
    RequiredKeys();
    if FieldsFilled(m) {
      assert FieldOk(m, REQUIRED[0]) && FieldOk(m, REQUIRED[1]) && FieldOk(m, REQUIRED[2]);
      assert FieldOk(m, REQUIRED[3]) && FieldOk(m, REQUIRED[4]) && FieldOk(m, REQUIRED[5]);
      assert FieldOk(m, REQUIRED[6]) && FieldOk(m, REQUIRED[7]) && FieldOk(m, REQUIRED[8]);
      assert FieldOk(m, REQUIRED[9]) && FieldOk(m, REQUIRED[10]);
    }
  }

  lemma DenotedFields(m: Object, s: UpdateState, digest: string)
    requires Denotes(m, s, digest) && "msi_path" !in m
    ensures FieldsFilled(m)
       <==> (&& s.installerPath != "" && s.targetVersion != "" && s.expectedSha256 != ""
             && s.appExePath != "" && s.logPath != "" && s.state != "" && s.createdAt != ""
             && digest != "")
  {
    hide FieldsFilled, Decimal, REQUIRED;
    FieldsFilledMeans(m);
    DecimalNotEmpty(s.schema);
    DecimalNotEmpty(s.appPid);
    DecimalNotEmpty(s.attempt);
  }

  lemma DenotedValid(hash: Hash, m: Object, s: UpdateState, digest: string)
    requires Denotes(m, s, digest) && "msi_path" !in m && ChecksumMatches(hash, m) && IsInt32(s.schema)
    ensures Valid(hash, m) <==> Complete(s) && digest != ""
  {
    hide ChecksumMatches, Decimal, REQUIRED, FieldOk, STATES;
    DenotedFields(m, s, digest);
    StoIDecimal(s.schema);
    KnownStatesNotEmpty();
    assert Valid(hash, m) <==> FieldsFilled(m) && SchemaOk(m) && m["state"] in STATES;
  }

  lemma KnownStatesNotEmpty()
    ensures "" !in STATES
  {
  }

  lemma NoMsiPath(s: UpdateState, digest: string)
    ensures "msi_path" !in StateMap(s)["checksum" := digest]
  {
    hide Entries, Position, ORDER;
    PositionsOfTail();
    EntriesOrdered(s);
    OrderedPositions(Entries(s), 0);
    LoadKeys(Entries(s), map[]);
  }

  /**
   * Round trip: a printed state is read back unchanged but for its checksum, which verifies;
   * it validates exactly when the state is complete and a digest was computed.
   */
  lemma RoundTrip(hash: Hash, s: UpdateState)
    requires CleanState(s) && EscapeClosed(Digest(hash, s))
    ensures ParseUpdateState(Parsed(Printed(hash, s))) == Some(s.(checksum := Digest(hash, s)))
    ensures ChecksumMatches(hash, Parsed(Printed(hash, s)))
    ensures Valid(hash, Parsed(Printed(hash, s))) <==> Complete(s) && Digest(hash, s) != ""
  {
    hide Parsed, Printed, StateMap, Payload, EscapeClosed, Denotes, Valid, Complete, ParseUpdateState;
    var m, d := Parsed(Printed(hash, s)), Digest(hash, s);
    ParsePrinted(hash, s);
    PayloadOfPrinted(s, d);
    NoMsiPath(s, d);
    PrintedDenotes(hash, s);
    DenotedState(m, s, d);
    DenotedValid(hash, m, s, d);
  }

  /**
   * Escape-closed fields are needed: an installer path that ends in a lone backslash makes
   * every document printed from the state invalid.
   */
  lemma TrailingBackslashInvalid(hash: Hash, s: UpdateState, p: string)
    requires EscapeClosed(p) && EscapeClosed(s.owner) && s.installerPath == p + "\\"
    ensures !Valid(hash, Parsed(Printed(hash, s)))
  {
    hide Entries, Digest, EscapeClosed, Valid, EntryText, ReadFields, NextField, Body, CleanNumber, Decimal;
    var es := Entries(s) + [ChecksumEntry(hash, s)];
    FirstEntries(s);
    DecimalIsClean(s.schema);
    var head := es[..2];
    assert AllClean(head);
    var next := NextKeyText(es[3..]);
    SplitAtThird(es, next);
    var rest := EntryText(es[2]) + ",\"" + next;
    ParsedIsFields(Body(head) + "," + rest);
    ReadPrefix(head, rest, map[]);
    BackslashRunsOn(es[2], p, next);
    HaltsAt(next);
    StopsAfter(rest, es[2].key, p + "\\\",", next, Load(head, map[]));
    LoadKeys(head, map[]);
    InvalidWithoutChecksum(hash, Parsed(Printed(hash, s)));
  }

  lemma FirstEntries(s: UpdateState)
    ensures |Entries(s)| > 3
    ensures Entries(s)[0] == Entry("schema", Decimal(s.schema), true)
    ensures Entries(s)[1] == Entry("owner", s.owner, false)
    ensures Entries(s)[2] == Entry("installer_path", s.installerPath, false)
    ensures Entries(s)[3].key != "" && Entries(s)[3].key[0] == 't'
  {
    hide Decimal;
  }

  /** The printed text, split around the third entry. */
  lemma SplitAtThird(es: seq<Entry>, next: string)
    requires |es| > 3 && Body(es[3..]) + "}" == "\"" + next
    ensures Render(es) == "{" + (Body(es[..2]) + "," + (EntryText(es[2]) + ",\"" + next))
  {
    hide EntryText;
    var head, mid, last := es[..2], es[2..], es[3..];
    assert es == head + mid && mid[1..] == last;
    BodyAppend(head, mid) by { hide Body; }
    assert Body(mid) == EntryText(es[2]) + "," + Body(last);
    hide Body;
    assert Body(es) + "}" == Body(head) + "," + (EntryText(es[2]) + "," + (Body(last) + "}"));
    assert EntryText(es[2]) + "," + ("\"" + next) == EntryText(es[2]) + ",\"" + next;
    assert Render(es) == "{" + (Body(es) + "}");
  }

  lemma StopsAfter(text: string, key: string, value: string, next: string, acc: Object)
    requires NextField(text) == Field(key, value, next) && NextField(next) == Halt
    ensures ReadFields(text, acc) == acc[key := value]
  {
    hide NextField;
  }

  // ---- Torn writes ----

  lemma NoChecksumYet(s: UpdateState)
    ensures "checksum" !in Keys(Entries(s))
  {
    hide Entries, Position, ORDER;
    PositionsOfTail();
    EntriesOrdered(s);
    OrderedPositions(Entries(s), 0);
  }

  lemma InvalidWithoutChecksum(hash: Hash, m: Object)
    requires !Filled(m, "checksum")
    ensures !Valid(hash, m)
  {
    hide REQUIRED, ChecksumMatches, STATES;
    FieldsFilledMeans(m);
  }

  /** A cut that reaches into the checksum entry leaves the state and a prefix of the digest. */
  lemma CutInChecksum(hash: Hash, s: UpdateState, r: string)
    requires CleanState(s) && EscapeClosed(Digest(hash, s))
    requires r <= EntryText(ChecksumEntry(hash, s)) + "}"
    ensures var m := ReadFields(r, StateMap(s));
            && (Valid(hash, m) ==> m == StateMap(s)["checksum" := Digest(hash, s)])
            && (m == StateMap(s)["checksum" := Digest(hash, s)] <==>
                  |r| >= |EntryText(ChecksumEntry(hash, s))| - 1)
  {
    hide Entries, Digest, EscapeClosed, Valid, NextField, Payload, EntryText;
    var e := ChecksumEntry(hash, s);
    assert Clean(e) && |e.key| == 8;
    if |r| <= 11 {
      EntryTextLength(e);
      if r == "" { HaltsAt(r); } else if |r| <= 9 { CutInKey(e, r); } else { CutAtColon(e, r); }
      NoChecksumYet(s);
      LoadKeys(Entries(s), map[]);
      InvalidWithoutChecksum(hash, StateMap(s));
      EntryTextLength(e);
    } else {
      var v := CutLast(e, r, StateMap(s));
      assert StateMap(s)["checksum" := v]["checksum"] == v;
      if v != Digest(hash, s) { WrongChecksum(hash, s, v); }
    }
  }

  lemma EntryTextLength(e: Entry)
    requires !e.bare
    ensures |EntryText(e)| == |e.key| + |e.value| + 5
  {
  }

  lemma WrongChecksum(hash: Hash, s: UpdateState, v: string)
    requires v != Digest(hash, s)
    ensures !Valid(hash, StateMap(s)["checksum" := v])
  {
    hide REQUIRED, STATES, StateMap, Payload, Entries, FieldOk, SchemaOk;
    PayloadOfPrinted(s, v);
  }

  /** A cut before the checksum entry. */
  lemma CutBeforeChecksum(hash: Hash, s: UpdateState, q: string)
    requires CleanState(s) && q <= Body(Entries(s))
    ensures !Valid(hash, Parsed("{" + q))
  {
    hide Entries, EscapeClosed, Valid, ReadFields, CleanState, Body, Parsed;
    EntriesClean(s);
    ParsedIsFields(q);
    CutBody(Entries(s), q, map[]);
    NoChecksumYet(s);
    InvalidWithoutChecksum(hash, Parsed("{" + q));
  }

  /** A cut after the comma before the checksum entry, or after all of it. */
  lemma CutAfterFields(hash: Hash, s: UpdateState, r: string)
    requires CleanState(s) && EscapeClosed(Digest(hash, s)) && r <= EntryText(ChecksumEntry(hash, s)) + "}"
    ensures var m, whole := Parsed("{" + (Body(Entries(s)) + "," + r)), Parsed(Printed(hash, s));
            && (Valid(hash, m) ==> m == whole)
            && (m == whole <==> |r| >= |EntryText(ChecksumEntry(hash, s))| - 1)
  {
    hide Entries, Digest, EscapeClosed, Valid, ReadFields, CleanState, Body, Parsed, EntryText, Printed;
    var es := Entries(s);
    EntriesClean(s);
    EntriesNotEmpty(s);
    ParsePrinted(hash, s);
    ParsedIsFields(Body(es) + "," + r);
    ReadPrefix(es, r, map[]);
    CutInChecksum(hash, s, r);
  }

  /**
   * However a printed document is cut short, what is left validates exactly when the whole does
   * and no more than the last quote and brace are missing; it then parses to the same map, hence
   * the same state.
   */
  lemma TornWrite(hash: Hash, s: UpdateState, p: string)
    requires CleanState(s) && EscapeClosed(Digest(hash, s))
    requires p <= Printed(hash, s)
    ensures Valid(hash, Parsed(p)) ==> Parsed(p) == Parsed(Printed(hash, s))
    ensures Valid(hash, Parsed(p)) <==>
              Complete(s) && Digest(hash, s) != "" && |p| >= |Printed(hash, s)| - 2
  {
    hide Entries, Digest, EscapeClosed, Valid, EntryText, ReadFields, Complete, CleanState, Body, Parsed, Printed;
    var body, last := Body(Entries(s)), EntryText(ChecksumEntry(hash, s));
    RoundTrip(hash, s);
    PrintedText(hash, s);
    EntryTextLength(ChecksumEntry(hash, s));
    if p == "" {
      NothingValid(hash);
    } else if |p| <= |body| + 1 {
      CutPrefix(body, "," + (last + "}"), p);
      CutBeforeChecksum(hash, s, p[1..]);
    } else {
      var r := CutSuffix(body, last + "}", p);
      CutAfterFields(hash, s, r);
    }
  }

  lemma NothingValid(hash: Hash)
    ensures !Valid(hash, Parsed(""))
  {
    hide Valid;
    InvalidWithoutChecksum(hash, map[]);
  }

  lemma CutPrefix(body: string, rest: string, p: string)
    requires p != "" && p <= "{" + (body + rest) && |p| <= |body| + 1
    ensures p == "{" + p[1..] && p[1..] <= body
  {
    var all := "{" + (body + rest);
    assert p[0] == all[0];
    assert p[1..] == all[1..][..|p| - 1] == (body + rest)[..|p| - 1] == body[..|p| - 1];
  }

  lemma CutSuffix(body: string, rest: string, p: string) returns (r: string)
    requires p <= "{" + (body + "," + rest) && |p| > |body| + 1
    ensures p == "{" + (body + "," + r) && r <= rest
  {
    var all := "{" + (body + "," + rest);
    var n := |body| + 2;
    r := p[n..];
    assert all[..n] == "{" + (body + ",") && all[n..] == rest;
    assert p[..n] == all[..n] && r == all[n..][..|r|];
    assert p == p[..n] + r;
  }

  lemma PrintedText(hash: Hash, s: UpdateState)
    ensures Printed(hash, s) == "{" + (Body(Entries(s)) + ("," + (EntryText(ChecksumEntry(hash, s)) + "}")))
    ensures Printed(hash, s) == "{" + (Body(Entries(s)) + "," + (EntryText(ChecksumEntry(hash, s)) + "}"))
  {
    hide Entries, Digest, EntryText, Lines;
    var es, e := Entries(s), ChecksumEntry(hash, s);
    EntriesNotEmpty(s);
    LinesBody(es, e);
    assert Body(es + [e]) == (Body(es) + ",") + EntryText(e);
  }

  lemma EntriesNotEmpty(s: UpdateState)
    ensures Entries(s) != []
  {
  }

  // ---- Unique decodability of the checksum payload ----

  /** A key of the map that the checksum covers, with a value the payload prints faithfully. */
  predicate CleanMap(m: Object) {
    forall i :: 0 <= i < |ORDER| && ORDER[i] in m ==> Clean(Entry(ORDER[i], m[ORDER[i]], IsNumberKey(ORDER[i])))
  }

  /** The part of a map that the checksum covers, from position `lo` on. */
  function Covered(m: Object, lo: nat): Object {
    map k | k in m && lo <= Position(k) < |ORDER| :: m[k]
  }

  lemma {:induction false} CanonicalClean(m: Object, lo: nat)
    requires lo <= |ORDER| && CleanMap(m)
    ensures AllClean(CanonicalFrom(m, lo))
    decreases |ORDER| - lo
  {
    hide ORDER, IsNumberKey, Clean;
    if lo < |ORDER| {
      CanonicalClean(m, lo + 1);
    }
  }

  lemma {:induction false} LoadCanonical(m: Object, lo: nat, acc: Object)
    requires lo <= |ORDER|
    ensures Load(CanonicalFrom(m, lo), acc) == acc + Covered(m, lo)
    decreases |ORDER| - lo
  {
    hide ORDER, IsNumberKey, Position;
    if lo == |ORDER| {
      assert Covered(m, lo) == map[];
    } else {
      PositionOfOrder(lo);
      var key, rest := ORDER[lo], CanonicalFrom(m, lo + 1);
      CoveredStep(m, lo);
      if key in m {
        var e := Entry(key, m[key], IsNumberKey(key));
        assert CanonicalFrom(m, lo) == [e] + rest;
        assert ([e] + rest)[1..] == rest;
        LoadCanonical(m, lo + 1, acc[key := m[key]]);
      } else {
        assert CanonicalFrom(m, lo) == rest;
        LoadCanonical(m, lo + 1, acc);
      }
    }
  }

  lemma CoveredStep(m: Object, lo: nat)
    requires lo < |ORDER|
    ensures Covered(m, lo) == if ORDER[lo] in m then map[ORDER[lo] := m[ORDER[lo]]] + Covered(m, lo + 1)
                              else Covered(m, lo + 1)
  {
    hide ORDER, Position;
    PositionOfOrder(lo);
    forall k | k in m && Position(k) == lo ensures k == ORDER[lo] {}
  }

  /** Parsing the payload gives back exactly the covered part of the map. */
  lemma PayloadDecodes(m: Object)
    requires CleanMap(m)
    ensures Parsed(Payload(m)) == Covered(m, 0)
  {
    hide ORDER, Position, Clean, Parsed;
    CanonicalClean(m, 0);
    ParseRender(CanonicalFrom(m, 0));
    LoadCanonical(m, 0, map[]);
  }

  /** `msi_path` is read when `installer_path` is absent, but no checksum covers it. */
  lemma ChecksumIgnoresMsiPath(hash: Hash, m: Object, path: string)
    requires path != "" && Valid(hash, m)
    ensures Valid(hash, m["msi_path" := path])
    ensures ParseUpdateState(m).Some? ==>
              (ParseUpdateState(m["msi_path" := path]) == ParseUpdateState(m)
               <==> "installer_path" in m || Holds(m, "msi_path", path))
  {
    hide REQUIRED, ChecksumMatches, STATES, StoI;
    FieldsFilledMeans(m);
    MsiPathKeepsFields(m, path);
    MsiPathKeepsChecksum(hash, m, path);
  }

  lemma MsiPathKeepsFields(m: Object, path: string)
    requires FieldsFilled(m) && path != ""
    ensures FieldsFilled(m["msi_path" := path])
  {
    hide REQUIRED;
    FieldsFilledMeans(m);
    FieldsFilledMeans(m["msi_path" := path]);
  }

  lemma MsiPathKeepsChecksum(hash: Hash, m: Object, path: string)
    requires ChecksumMatches(hash, m)
    ensures ChecksumMatches(hash, m["msi_path" := path])
  {
    hide CanonicalFrom, Render, Position, ORDER;
    PositionsOfTail();
    CanonicalIgnores(m, "msi_path", path, 0);
  }

  // ---- Errors after validation ----

  function NumberAt(m: Object, key: string): Option<int> {
    if key in m then StoI(m[key]) else None
  }

  /** A validated document still throws when read exactly if a number validation skips is not one. */
  lemma ReadingMayThrow(hash: Hash, m: Object)
    requires Valid(hash, m)
    ensures ParseUpdateState(m) == None
       <==> NumberAt(m, "app_pid") == None || NumberAt(m, "attempt") == None
  {
    hide REQUIRED, ChecksumMatches, STATES, StoI, FieldOk;
    RequiredFields(m);
  }

  // ---- Documents that show both ----

  /** A map that lacks only its checksum becomes valid with the one computed from it. */
  lemma Sealed(hash: Hash, m: Object)
    requires hash(Payload(m)) != "" && SchemaOk(m) && "state" in m && m["state"] in STATES
    requires && FieldOk(m, "schema") && FieldOk(m, "installer_path") && FieldOk(m, "target_version")
             && FieldOk(m, "expected_sha256") && FieldOk(m, "app_pid") && FieldOk(m, "app_exe_path")
             && FieldOk(m, "log_path") && FieldOk(m, "state") && FieldOk(m, "created_at") && FieldOk(m, "attempt")
    ensures Valid(hash, m["checksum" := hash(Payload(m))])
  {
    hide REQUIRED, STATES, CanonicalFrom, Render, Position, ORDER, StoI;
    var sealed := m["checksum" := hash(Payload(m))];
    PositionsOfTail();
    CanonicalIgnores(m, "checksum", hash(Payload(m)), 0);
    FieldsFilledMeans(sealed);
  }

  /** A document with every required field but `installer_path` and the checksum. */
  function Unsealed(appPid: string): Object {
    map["schema" := "1", "target_version" := "1.0.0.0", "expected_sha256" := "0", "app_pid" := appPid,
        "app_exe_path" := "a", "log_path" := "l", "state" := "verified", "created_at" := "t", "attempt" := "1"]
  }

  lemma UnsealedFields(appPid: string, key: string, path: string)
    requires appPid != "" && path != "" && (key == "installer_path" || key == "msi_path")
    ensures var m := Unsealed(appPid)[key := path];
      && FieldOk(m, "schema") && FieldOk(m, "installer_path") && FieldOk(m, "target_version")
      && FieldOk(m, "expected_sha256") && FieldOk(m, "app_pid") && FieldOk(m, "app_exe_path")
      && FieldOk(m, "log_path") && FieldOk(m, "state") && FieldOk(m, "created_at") && FieldOk(m, "attempt")
      && "schema" in m && "state" in m && "app_pid" in m && "attempt" in m
      && m["schema"] == "1" && m["state"] in STATES && m["app_pid"] == appPid && m["attempt"] == "1"
      && key in m && m[key] == path && (key != "installer_path" ==> "installer_path" !in m)
  {
    assert STATES[0] == "verified";
  }

  lemma SmallNumbers()
    ensures StoI("1") == Some(1) && StoI("x") == None
  {
    hide Span;
    assert Decimal(1) == "1";
    StoIDecimal(1);
    SpanIs("x", IsSpace, 0);
    assert "x"[0..] == "x";
    SpanIs("x", IsDigit, 0);
  }

  /** A valid document whose process id is no number: the agent throws when it reads it. */
  lemma ThrowingDocument(hash: Hash) returns (m: Object)
    requires forall text :: hash(text) != ""
    ensures Valid(hash, m) && ParseUpdateState(m) == None
  {
    hide Payload, FieldOk, StoI, STATES, Valid, Unsealed;
    var open := Unsealed("x")["installer_path" := "i"];
    UnsealedFields("x", "installer_path", "i");
    SmallNumbers();
    Sealed(hash, open);
    m := open["checksum" := hash(Payload(open))];
    ReadingMayThrow(hash, m);
  }

  lemma MsiPathRead(m: Object, other: string)
    requires ParseUpdateState(m).Some? && "installer_path" !in m
    ensures "msi_path" in m && ParseUpdateState(m).value.installerPath == m["msi_path"]
    ensures ParseUpdateState(m["msi_path" := other])
         == Some(ParseUpdateState(m).value.(installerPath := other))
  {
    hide StoI;
  }

  /** Two valid documents with one checksum that name different installers. */
  lemma UncoveredInstaller(hash: Hash, path: string, other: string) returns (m: Object)
    requires (forall text :: hash(text) != "") && path != "" && other != ""
    ensures Valid(hash, m) && Valid(hash, m["msi_path" := other])
    ensures ParseUpdateState(m).Some? && ParseUpdateState(m).value.installerPath == path
    ensures ParseUpdateState(m["msi_path" := other])
         == Some(ParseUpdateState(m).value.(installerPath := other))
  {
    hide Payload, FieldOk, StoI, STATES, Valid, Unsealed, ParseUpdateState;
    var open := Unsealed("1")["msi_path" := path];
    UnsealedFields("1", "msi_path", path);
    SmallNumbers();
    Sealed(hash, open);
    m := open["checksum" := hash(Payload(open))];
    ReadingMayThrow(hash, m);
    MsiPathRead(m, other);
    ChecksumIgnoresMsiPath(hash, m, other);
  }

  // ---- Validation and reading, field by field ----

  lemma StatesAre(state: string)
    ensures state in STATES <==>
              state in {"verified", "waitingExit", "installing", "installed", "restarting", "failed", "idle"}
  {
    var s := STATES;
    assert s[0] in s && s[1] in s && s[2] in s && s[3] in s && s[4] in s && s[6] in s && s[7] in s;
  }

  /** What validation asks of a document, field by field. */
  lemma ValidMeans(hash: Hash, m: Object)
    ensures Valid(hash, m) <==>
      && "schema" in m && m["schema"] != "" && "target_version" in m && m["target_version"] != ""
      && "expected_sha256" in m && m["expected_sha256"] != "" && "app_pid" in m && m["app_pid"] != ""
      && "app_exe_path" in m && m["app_exe_path"] != "" && "log_path" in m && m["log_path"] != ""
      && "state" in m && m["state"] != "" && "created_at" in m && m["created_at"] != ""
      && "attempt" in m && m["attempt"] != "" && "checksum" in m && m["checksum"] != ""
      && ("installer_path" in m || "msi_path" in m)
      && ("installer_path" in m && m["installer_path"] == "" ==> "msi_path" in m && m["msi_path"] != "")
      && StoI(m["schema"]).Some? && StoI(m["schema"]).value <= 1
      && m["state"] in {"verified", "waitingExit", "installing", "installed", "restarting", "failed", "idle"}
      && ChecksumMatches(hash, m)
  {
    hide REQUIRED, ChecksumMatches, STATES, StoI;
    FieldsFilledMeans(m);
    if "state" in m { StatesAre(m["state"]); }
    FieldsOk(m);
  }

  lemma FieldsOk(m: Object)
    ensures FieldOk(m, "installer_path") <==>
              && ("installer_path" in m || "msi_path" in m)
              && ("installer_path" in m && m["installer_path"] == "" ==> "msi_path" in m && m["msi_path"] != "")
    ensures forall key :: key != "installer_path" ==> (FieldOk(m, key) <==> key in m && m[key] != "")
  {
  }

  /** What is read where an optional field is missing, and which installer is read. */
  lemma ReadDefaults(m: Object)
    requires ParseUpdateState(m).Some?
    ensures var s := ParseUpdateState(m).value;
      && ("owner" !in m ==> s.owner == "app") && ("owner" in m ==> s.owner == m["owner"])
      && ("error" !in m ==> s.error == "") && ("completed_at" !in m ==> s.completedAt == "")
      && ("installer_path" in m ==> s.installerPath == m["installer_path"])
      && ("installer_path" !in m ==> "msi_path" in m && s.installerPath == m["msi_path"])
  {
    hide StoI;
  }

  // ---- The printed text ----

  /** The fields of a document in the order they are printed, up to the state. */
  lemma HeadPrinted(s: UpdateState)
    ensures |HeadEntries(s)| == 9 && HeadEntries(s)[..3] ==
      [ Entry("schema", Decimal(s.schema), true), Entry("owner", s.owner, false),
        Entry("installer_path", s.installerPath, false) ]
    ensures HeadEntries(s)[3..6] ==
      [ Entry("target_version", s.targetVersion, false), Entry("expected_sha256", s.expectedSha256, false),
        Entry("app_pid", Decimal(s.appPid), true) ]
    ensures HeadEntries(s)[6..] ==
      [ Entry("app_exe_path", s.appExePath, false), Entry("log_path", s.logPath, false),
        Entry("state", s.state, false) ]
  {
    hide Decimal;
  }

  /** And after it: an empty error or completion time is not printed. */
  lemma TailPrinted(s: UpdateState)
    ensures Entries(s)[..9] == HeadEntries(s) && |Entries(s)| <= 13
    ensures (s.error == "" && s.completedAt == "") ==>
              Entries(s)[9..] == [Entry("created_at", s.createdAt, false), Entry("attempt", Decimal(s.attempt), true)]
    ensures (s.error != "" && s.completedAt == "") ==>
              Entries(s)[9..] == [Entry("error", s.error, false), Entry("created_at", s.createdAt, false),
                                  Entry("attempt", Decimal(s.attempt), true)]
    ensures (s.error == "" && s.completedAt != "") ==>
              Entries(s)[9..] == [Entry("created_at", s.createdAt, false), Entry("completed_at", s.completedAt, false),
                                  Entry("attempt", Decimal(s.attempt), true)]
    ensures (s.error != "" && s.completedAt != "") ==>
              Entries(s)[9..] == [Entry("error", s.error, false), Entry("created_at", s.createdAt, false),
                                  Entry("completed_at", s.completedAt, false),
                                  Entry("attempt", Decimal(s.attempt), true)]
  {
    hide Decimal, HeadEntries;
    HeadLength(s);
  }
}
