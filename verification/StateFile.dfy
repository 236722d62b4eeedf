/**
 * The update-state document: validation, reading, writing and its checksum
 * (json_reader.cpp and checksum.cpp). `hash` stands for ComputeChecksum.
 */
module StateFile {
  import opened Text
  import opened FlatJson
  import opened Document

  type Hash = string -> string

  datatype UpdateState = UpdateState(
    schema: int, owner: string, installerPath: string, targetVersion: string,
    expectedSha256: string, appPid: int, appExePath: string, logPath: string,
    state: string, error: string, createdAt: string, completedAt: string,
    attempt: int, checksum: string)

  // ---- Canonical keys ----

  /** Keys covered by the checksum, in the order both writer and verifier use. */
  const ORDER: seq<string> := [
    "schema", "owner", "installer_path", "target_version",
    "expected_sha256", "app_pid", "app_exe_path", "log_path",
    "state", "error", "created_at", "completed_at", "attempt"]

  predicate IsNumberKey(key: string) {
    key == "schema" || key == "app_pid" || key == "attempt"
  }

  /** Position of a key in ORDER, or |ORDER| for any other key. */
  function Position(key: string): (p: nat)
    ensures p <= |ORDER|
    ensures p < |ORDER| ==> ORDER[p] == key
  {
    if key == "schema" then 0 else if key == "owner" then 1
    else if key == "installer_path" then 2 else if key == "target_version" then 3
    else if key == "expected_sha256" then 4 else if key == "app_pid" then 5
    else if key == "app_exe_path" then 6 else if key == "log_path" then 7
    else if key == "state" then 8 else if key == "error" then 9
    else if key == "created_at" then 10 else if key == "completed_at" then 11
    else if key == "attempt" then 12 else 13
  }

  lemma PositionOfOrder(i: nat)
    requires i < |ORDER|
    ensures Position(ORDER[i]) == i
  {
    assert ORDER[0] == "schema" && ORDER[1] == "owner" && ORDER[2] == "installer_path";
    assert ORDER[3] == "target_version" && ORDER[4] == "expected_sha256" && ORDER[5] == "app_pid";
    assert ORDER[6] == "app_exe_path" && ORDER[7] == "log_path" && ORDER[8] == "state";
    assert ORDER[9] == "error" && ORDER[10] == "created_at" && ORDER[11] == "completed_at";
  }

  /** The entries of `m` under the keys ORDER[lo..], in that order. */
  function CanonicalFrom(m: Object, lo: nat): seq<Entry>
    requires lo <= |ORDER|
    decreases |ORDER| - lo
  {
    if lo == |ORDER| then []
    else
      var key := ORDER[lo];
      (if key in m then [Entry(key, m[key], IsNumberKey(key))] else []) + CanonicalFrom(m, lo + 1)
  }

  /** The text whose hash VerifyChecksum compares. */
  function Payload(m: Object): string {
    Render(CanonicalFrom(m, 0))
  }

  predicate ChecksumMatches(hash: Hash, m: Object) {
    "checksum" in m && hash(Payload(m)) == m["checksum"]
  }

  // ---- Validation and reading ----

  const REQUIRED: seq<string> := [
    "schema", "installer_path", "target_version", "expected_sha256",
    "app_pid", "app_exe_path", "log_path", "state",
    "created_at", "attempt", "checksum"]

  const STATES: seq<string> := [
    "verified", "waitingExit", "installing", "installed", "restarting", "installed", "failed", "idle"]

  predicate Filled(m: Object, key: string) {
    key in m && m[key] != ""
  }

  /** The installer may be named by `installer_path` or, in old files, by `msi_path`. */
  predicate NamesInstaller(m: Object) {
    && ("installer_path" in m || "msi_path" in m)
    && (Filled(m, "installer_path") || "installer_path" !in m || Filled(m, "msi_path"))
  }

  predicate FieldOk(m: Object, key: string) {
    if key == "installer_path" then NamesInstaller(m) else Filled(m, key)
  }

  predicate SchemaOk(m: Object) {
    "schema" in m && StoI(m["schema"]).Some? && StoI(m["schema"]).value <= 1
  }

  /** What ValidateStateFile accepts. */
  predicate Valid(hash: Hash, m: Object) {
    && (forall i :: 0 <= i < |REQUIRED| ==> FieldOk(m, REQUIRED[i]))
    && SchemaOk(m)
    && "state" in m && m["state"] in STATES
    && ChecksumMatches(hash, m)
  }

  predicate HasFields(m: Object) {
    && "schema" in m && "target_version" in m && "expected_sha256" in m && "app_pid" in m
    && "app_exe_path" in m && "log_path" in m && "state" in m && "created_at" in m
    && "attempt" in m && "checksum" in m && ("installer_path" in m || "msi_path" in m)
  }

  /** ParseUpdateState; None where `map::at` or `std::stoi` throws. */
  function ParseUpdateState(m: Object): Option<UpdateState> {
    if !HasFields(m) then None
    else
      var schema, appPid, attempt := StoI(m["schema"]), StoI(m["app_pid"]), StoI(m["attempt"]);
      if schema.None? || appPid.None? || attempt.None? then None
      else Some(UpdateState(
        schema.value,
        if "owner" in m then m["owner"] else "app",
        if "installer_path" in m then m["installer_path"] else m["msi_path"],
        m["target_version"], m["expected_sha256"], appPid.value, m["app_exe_path"], m["log_path"],
        m["state"],
        if "error" in m then m["error"] else "",
        m["created_at"],
        if "completed_at" in m then m["completed_at"] else "",
        attempt.value, m["checksum"]))
  }

  /** The text still to be appended for `es`, given whether nothing was appended yet. */
  ghost function Remaining(first: bool, es: seq<Entry>): string {
    (if first || es == [] then "" else ",") + Body(es) + "}"
  }

  lemma RemainingStep(first: bool, e: Entry, rest: seq<Entry>)
    ensures Remaining(first, [e] + rest)
         == (if first then "" else ",") + EntryText(e) + Remaining(false, rest)
  {
    hide EntryText;
    assert ([e] + rest)[1..] == rest;
    if rest == [] {
      assert [e] + rest == [e];
    }
  }

  lemma RemainingKey(m: Object, i: nat, first: bool)
    requires i < |ORDER|
    ensures var key, rest := ORDER[i], CanonicalFrom(m, i + 1);
            Remaining(first, CanonicalFrom(m, i)) ==
            if key !in m then Remaining(first, rest)
            else ((if first then "" else ",") + EntryText(Entry(key, m[key], IsNumberKey(key))))
                 + Remaining(false, rest)
  {
    hide ORDER, IsNumberKey, EntryText, Remaining;
    var key, rest := ORDER[i], CanonicalFrom(m, i + 1);
    if key in m {
      RemainingStep(first, Entry(key, m[key], IsNumberKey(key)), rest);
    } else {
      assert CanonicalFrom(m, i) == rest;
    }
  }

  lemma CanonicalEnd(m: Object)
    ensures CanonicalFrom(m, |ORDER|) == []
  {
  }

  lemma RemainingStart(es: seq<Entry>)
    ensures "{" + Remaining(true, es) == Render(es)
  {
    hide Body;
  }

  lemma RemainingEnd(first: bool)
    ensures Remaining(first, []) == "}"
  {
  }

  lemma Regroup(a: string, b: string, c: string, d: string)
    ensures ((a + b) + c) + d == a + (b + (c + d))
  {
  }

  /** Appends one key and value of the canonical payload. */
  method AppendCanonical(before: string, first: bool, key: string, value: string) returns (payload: string)
    ensures payload == before + ((if first then "" else ",") + EntryText(Entry(key, value, IsNumberKey(key))))
  {
    hide IsNumberKey;
    var comma := if first then "" else ",";
    var head := "\"" + key + "\":";
    var text := if IsNumberKey(key) then value else "\"" + value + "\"";
    payload := before + comma;
    payload := payload + head;
    payload := payload + text;
    Regroup(before, comma, head, text);
    assert EntryText(Entry(key, value, IsNumberKey(key))) == head + text;
  }

  /** VerifyChecksum: rebuilds the payload key by key, a comma before all but the first. */
  method VerifyChecksum(hash: Hash, m: Object) returns (ok: bool)
    ensures ok == ChecksumMatches(hash, m)
  {
    hide ORDER, IsNumberKey, EntryText, Remaining, Render, CanonicalFrom;
    CanonicalEnd(m);
    if "checksum" !in m { return false; }
    var storedChecksum := m["checksum"];
    var payload, first, i := "{", true, 0;
    RemainingStart(CanonicalFrom(m, 0));
    while i < |ORDER|
      invariant 0 <= i <= |ORDER|
      invariant payload + Remaining(first, CanonicalFrom(m, i)) == Payload(m)
    {
      var key := ORDER[i];
      RemainingKey(m, i, first);
      if key in m {
        payload := AppendCanonical(payload, first, key, m[key]);
        first := false;
      }
      i := i + 1;
    }
    RemainingEnd(first);
    payload := payload + "}";
    ok := hash(payload) == storedChecksum;
  }

  /** The loop of ValidateStateFile over the required fields. */
  method CheckRequired(m: Object) returns (ok: bool)
    ensures ok == forall i :: 0 <= i < |REQUIRED| ==> FieldOk(m, REQUIRED[i])
  {
    hide REQUIRED;
    var i := 0;
    while i < |REQUIRED|
      invariant 0 <= i <= |REQUIRED|
      invariant forall j :: 0 <= j < i ==> FieldOk(m, REQUIRED[j])
    {
      var field := REQUIRED[i];
      if field == "installer_path" {
        if field !in m && "msi_path" !in m { return false; }
        if field in m && m[field] == "" {
          if "msi_path" !in m || m["msi_path"] == "" { return false; }
        }
        i := i + 1;
        continue;
      }
      if field !in m { return false; }
      if m[field] == "" { return false; }
      i := i + 1;
    }
    ok := true;
  }

  /** The loop of ValidateStateFile over the known states. */
  method IsKnownState(state: string) returns (valid: bool)
    ensures valid == (state in STATES)
  {
    hide STATES;
    valid := false;
    for i := 0 to |STATES|
      invariant !valid && state !in STATES[..i]
    {
      if state == STATES[i] { valid := true; break; }
    }
  }

  lemma RequiredFields(m: Object)
    requires forall i :: 0 <= i < |REQUIRED| ==> FieldOk(m, REQUIRED[i])
    ensures HasFields(m) && NamesInstaller(m)
    ensures Filled(m, "schema") && Filled(m, "state")
  {
    hide NamesInstaller, Filled, REQUIRED;
    RequiredKeys();
    assert FieldOk(m, REQUIRED[0]) && FieldOk(m, REQUIRED[1]) && FieldOk(m, REQUIRED[2]);
    assert FieldOk(m, REQUIRED[3]) && FieldOk(m, REQUIRED[4]) && FieldOk(m, REQUIRED[5]);
    assert FieldOk(m, REQUIRED[6]) && FieldOk(m, REQUIRED[7]) && FieldOk(m, REQUIRED[8]);
    assert FieldOk(m, REQUIRED[9]) && FieldOk(m, REQUIRED[10]);
    FilledIsPresent(m);
  }

  lemma RequiredKeys()
    ensures |REQUIRED| == 11
    ensures REQUIRED[0] == "schema" && REQUIRED[1] == "installer_path" && REQUIRED[2] == "target_version"
    ensures REQUIRED[3] == "expected_sha256" && REQUIRED[4] == "app_pid" && REQUIRED[5] == "app_exe_path"
    ensures REQUIRED[6] == "log_path" && REQUIRED[7] == "state" && REQUIRED[8] == "created_at"
    ensures REQUIRED[9] == "attempt" && REQUIRED[10] == "checksum"
  {
  }

  lemma FilledIsPresent(m: Object)
    ensures forall key :: Filled(m, key) ==> key in m
    ensures NamesInstaller(m) ==> "installer_path" in m || "msi_path" in m
  {
  }

  /** ValidateStateFile. */
  method ValidateStateFile(hash: Hash, m: Object) returns (ok: bool)
    ensures ok == Valid(hash, m)
  {
    hide REQUIRED, STATES, FieldOk, ChecksumMatches, HasFields;
    ok := CheckRequired(m);
    if !ok { return; }
    RequiredFields(m);
    var schema := StoI(m["schema"]);
    if schema.None? { return false; }
    if schema.value > 1 { return false; }
    ok := IsKnownState(m["state"]);
    if !ok { return; }
    ok := VerifyChecksum(hash, m);
  }

  // ---- Writing ----

  /** The entries that are always printed first. */
  function HeadEntries(s: UpdateState): seq<Entry> {
    [ Entry("schema", Decimal(s.schema), true), Entry("owner", s.owner, false),
      Entry("installer_path", s.installerPath, false), Entry("target_version", s.targetVersion, false),
      Entry("expected_sha256", s.expectedSha256, false), Entry("app_pid", Decimal(s.appPid), true),
      Entry("app_exe_path", s.appExePath, false), Entry("log_path", s.logPath, false),
      Entry("state", s.state, false) ]
  }

  /** The entries after `state`; an empty error or completion time is not printed. */
  function TailEntries(s: UpdateState): seq<Entry> {
    (if s.error == "" then [] else [Entry("error", s.error, false)])
    + [ Entry("created_at", s.createdAt, false) ]
    + (if s.completedAt == "" then [] else [Entry("completed_at", s.completedAt, false)])
    + [ Entry("attempt", Decimal(s.attempt), true) ]
  }

  /** The entries WriteUpdateState prints before the checksum. */
  function Entries(s: UpdateState): seq<Entry> {
    HeadEntries(s) + TailEntries(s)
  }

  function Digest(hash: Hash, s: UpdateState): string {
    hash(Render(Entries(s)))
  }

  function ChecksumEntry(hash: Hash, s: UpdateState): Entry {
    Entry("checksum", Digest(hash, s), false)
  }

  /** The document WriteUpdateState leaves on disk. */
  function Printed(hash: Hash, s: UpdateState): string {
    Render(Entries(s) + [ChecksumEntry(hash, s)])
  }

  /** Entry texts, each followed by a comma: the form the document has while it is built. */
  ghost function Lines(es: seq<Entry>): string {
    if es == [] then "" else EntryText(es[0]) + "," + Lines(es[1..])
  }

  lemma {:induction false} LinesAppend(a: seq<Entry>, b: seq<Entry>)
    ensures Lines(a + b) == Lines(a) + Lines(b)
  {
    hide EntryText;
    if a == [] {
      assert a + b == b;
    } else {
      assert (a + b)[1..] == a[1..] + b;
      LinesAppend(a[1..], b);
    }
  }

  lemma {:induction false} LinesBody(es: seq<Entry>, e: Entry)
    ensures Body(es + [e]) == Lines(es) + EntryText(e)
    ensures es != [] ==> Lines(es) == Body(es) + ","
  {
    hide EntryText;
    if es == [] {
      assert es + [e] == [e];
    } else {
      assert (es + [e])[1..] == es[1..] + [e];
      LinesBody(es[1..], e);
    }
  }

  lemma LinesSnoc(es: seq<Entry>, e: Entry)
    ensures Lines(es + [e]) == Lines(es) + (EntryText(e) + ",")
  {
    hide EntryText;
    LinesAppend(es, [e]);
  }

  /** `"key":"value",` or `"key":value,`. */
  method FieldLine(key: string, value: string, bare: bool) returns (line: string)
    ensures line == EntryText(Entry(key, value, bare)) + ","
  {
    var head := "\"" + key + "\":";
    if bare {
      line := head + value;
    } else {
      line := head + ("\"" + value + "\"");
    }
    assert line == EntryText(Entry(key, value, bare));
    line := line + ",";
  }

  /** Appends one field; it is entry `k` of the list `es` that is being printed. */
  method AppendField(json: string, key: string, value: string, bare: bool, ghost es: seq<Entry>, ghost k: nat)
    returns (out: string)
    requires k < |es| && es[k] == Entry(key, value, bare)
    requires json == "{" + Lines(es[..k])
    ensures out == "{" + Lines(es[..k + 1])
  {
    hide Lines, EntryText;
    LinesSnoc(es[..k], es[k]);
    assert es[..k + 1] == es[..k] + [es[k]];
    var line := FieldLine(key, value, bare);
    out := json + line;
  }

  method BuildHead(s: UpdateState) returns (json: string)
    ensures json == "{" + Lines(Entries(s)[..9])
  {
    hide Lines, EntryText, Decimal, TailEntries;
    ghost var es := Entries(s);
    LinesOfNothing();
    json := "{";
    json := AppendField(json, "schema", Decimal(s.schema), true, es, 0);
    json := AppendField(json, "owner", s.owner, false, es, 1);
    json := AppendField(json, "installer_path", s.installerPath, false, es, 2);
    json := AppendField(json, "target_version", s.targetVersion, false, es, 3);
    json := AppendField(json, "expected_sha256", s.expectedSha256, false, es, 4);
    json := AppendField(json, "app_pid", Decimal(s.appPid), true, es, 5);
    json := AppendField(json, "app_exe_path", s.appExePath, false, es, 6);
    json := AppendField(json, "log_path", s.logPath, false, es, 7);
    json := AppendField(json, "state", s.state, false, es, 8);
  }

  /** The text WriteUpdateState builds; the payload is that text with its last comma closed. */
  method BuildDocument(hash: Hash, s: UpdateState) returns (json: string)
    ensures json == Printed(hash, s)
  {
    hide Lines, Render, EntryText, Decimal, HeadEntries;
    json := BuildHead(s);
    ghost var es, k := Entries(s), 9;
    HeadLength(s);
    if s.error != "" {
      json := AppendField(json, "error", s.error, false, es, k);
      k := k + 1;
    }
    json := AppendField(json, "created_at", s.createdAt, false, es, k);
    k := k + 1;
    if s.completedAt != "" {
      json := AppendField(json, "completed_at", s.completedAt, false, es, k);
      k := k + 1;
    }
    json := AppendField(json, "attempt", Decimal(s.attempt), true, es, k);
    assert es[..k + 1] == es;
    json := CloseDocument(hash, json, es);
  }

  lemma HeadLength(s: UpdateState)
    ensures |HeadEntries(s)| == 9
  {
  }

  lemma LinesOfNothing()
    ensures Lines([]) == ""
  {
  }

  /** Closes the payload in place of the last comma, hashes it and appends the checksum. */
  method CloseDocument(hash: Hash, open: string, ghost es: seq<Entry>) returns (json: string)
    requires es != [] && open == "{" + Lines(es)
    ensures json == Render(es + [Entry("checksum", hash(Render(es)), false)])
  {
    hide Lines, Body, EntryText;
    ghost var e := Entry("checksum", hash(Render(es)), false);
    LinesBody(es, e);
    assert open == ("{" + Body(es)) + ",";
    var payload := open;
    if payload[|payload| - 1] == ',' { payload := payload[..|payload| - 1]; }
    payload := payload + "}";
    var checksum := hash(payload);
    var line := FieldText("checksum", checksum);
    json := open + line;
    json := json + "}";
  }

  /** `"key":"value"`, as the checksum is appended. */
  method FieldText(key: string, value: string) returns (text: string)
    ensures text == EntryText(Entry(key, value, false))
  {
    text := "\"" + key + "\":" + ("\"" + value + "\"");
  }
}
