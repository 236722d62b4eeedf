/**
 * The update agent (main.cpp, installer.cpp, common.h): one run from Boot to Done.
 * Every answer of the operating system is a field of `Env`, so a statement about all
 * environments is a statement about all runs.
 */
module Agent {
  import opened Text
  import opened FlatJson
  import opened Document
  import opened StateFile
  import opened StateFileProperties
  import opened Store
  import VersionCheck

  // ---- Constants ----

  const WAIT_FOR_APP_EXIT_MS: nat := 60000
  const TERMINATE_WAIT_MS: nat := 5000
  const SETUP_EXEC_TIMEOUT_MS: nat := 600000
  const SETUP_KILL_WAIT_MS: nat := 5000
  const EXE_POLL_TIMEOUT_MS: nat := 10000
  const EXE_POLL_MS: nat := 500
  const LAUNCH_CHECK_MS: nat := 100
  const INSTALL_MAX_RETRIES: nat := 3
  const INSTALL_RETRY_DELAYS: seq<nat> := [5000, 10000, 10000]
  const MIN_INSTALLER_SIZE: nat := 1024 * 1024

  type DWORD = x: int | 0 <= x < 0x1_0000_0000

  /** How a run ends: with an exit code, or by an exception nobody catches. */
  datatype Exit = Code(code: int) | Crashed

  const SUCCESS := Code(0)
  const APP_EXIT_TIMEOUT := Code(1)
  const INSTALL_FAIL := Code(2)
  const VERIFY_FAILED := Code(3)
  const RESTART_FAILED := Code(4)
  const INVALID_STATE := Code(5)

  // ---- The environment ----

  datatype SystemTime = SystemTime(year: nat, month: nat, day: nat, hour: nat, minute: nat, second: nat)

  /** One start of the installer: not created, finished with a code, or killed after the timeout. */
  datatype Setup = NotStarted | Finished(code: DWORD) | Killed(code: DWORD)

  datatype Env = Env(
    alone: bool,
    installerExists: bool, installerSize: nat, installerSigned: bool,
    appRunning: bool, exitsInTime: bool, exitsWhenKilled: bool,
    setup: nat -> Setup,
    exeSeen: nat -> bool,
    exeVersion: Option<VersionCheck.FileVersion>, exeSigned: bool, launches: bool,
    clock: nat -> SystemTime, io: nat -> Io)

  /** RunSetupExe: the exit code of one attempt; -1 as an unsigned word when nothing started. */
  function ExitCodeOf(s: Setup): DWORD {
    match s
    case NotStarted => 0xFFFF_FFFF
    case Finished(code) => code
    case Killed(code) => code
  }

  function SetupWait(s: Setup): nat {
    match s
    case NotStarted => 0
    case Finished(_) => SETUP_EXEC_TIMEOUT_MS
    case Killed(_) => SETUP_EXEC_TIMEOUT_MS + SETUP_KILL_WAIT_MS
  }

  /** The waits of the first `k` installer starts together. */
  function SetupWaits(env: Env, k: nat): nat {
    if k == 0 then 0 else SetupWaits(env, k - 1) + SetupWait(env.setup(k))
  }

  lemma {:induction false} SetupWaitsBound(env: Env, k: nat)
    ensures SetupWaits(env, k) <= k * 605_000
  {
    if k > 0 { SetupWaitsBound(env, k - 1); }
  }

  /** What one installer start yields and how long it may take. */
  lemma SetupAnswers(setup: Setup)
    ensures setup == NotStarted ==> ExitCodeOf(setup) == 4_294_967_295 && SetupWait(setup) == 0
    ensures setup.Finished? ==> ExitCodeOf(setup) == setup.code && SetupWait(setup) == 600_000
    ensures setup.Killed? ==> ExitCodeOf(setup) == setup.code && SetupWait(setup) == 605_000
  {
  }

  predicate IsInstallSuccess(code: DWORD) {
    code == 0
  }

  predicate IsInstallRetryable(code: DWORD) {
    if code == 1 || code == 2 || code == 5 then false else !IsInstallSuccess(code)
  }

  // ---- Time stamps ----

  function Padded(n: nat, width: nat): string
    decreases width
  {
    if width == 0 then (if n == 0 then "" else Digits(n))
    else Padded(n / 10, width - 1) + [DigitChar(n % 10)]
  }

  /** The format of `completed_at`. */
  function Stamp(t: SystemTime): string {
    Padded(t.year, 4) + "-" + Padded(t.month, 2) + "-" + Padded(t.day, 2) + "T"
    + Padded(t.hour, 2) + ":" + Padded(t.minute, 2) + ":" + Padded(t.second, 2) + ".000Z"
  }

  predicate Plain(s: string) {
    forall i :: 0 <= i < |s| ==> s[i] != '"' && s[i] != '\\'
  }

  lemma {:induction false} PaddedPlain(n: nat, width: nat)
    ensures Plain(Padded(n, width))
    decreases width
  {
    if width == 0 {
      DigitsValue(n);
      if n != 0 {
        forall i | 0 <= i < |Digits(n)| ensures Digits(n)[i] != '"' && Digits(n)[i] != '\\' {
          assert IsDigit(Digits(n)[i]);
        }
      }
    } else {
      PaddedPlain(n / 10, width - 1);
    }
  }

  lemma StampPlain(t: SystemTime)
    ensures Stamp(t) != "" && EscapeClosed(Stamp(t))
  {
    hide Padded;
    PaddedPlain(t.year, 4); PaddedPlain(t.month, 2); PaddedPlain(t.day, 2);
    PaddedPlain(t.hour, 2); PaddedPlain(t.minute, 2); PaddedPlain(t.second, 2);
    PlainIsClosed(Stamp(t));
  }

  lemma LastDigit(n: nat, width: nat)
    requires width > 0
    ensures Padded(n, width) == Padded(n / 10, width - 1) + [DigitChar(n % 10)]
  {
  }

  lemma NoDigit()
    ensures Padded(0, 0) == ""
  {
  }

  lemma FieldDigits(n: nat)
    requires n < 100
    ensures Padded(n, 2) == [DigitChar(n / 10), DigitChar(n % 10)]
  {
    hide Padded, Digits;
    LastDigit(n, 2);
    LastDigit(n / 10, 1);
    NoDigit();
  }

  lemma YearDigits(n: nat)
    requires n < 10000
    ensures Padded(n, 4) == [DigitChar(n / 1000), DigitChar(n / 100 % 10), DigitChar(n / 10 % 10), DigitChar(n % 10)]
  {
    hide Padded, Digits;
    LastDigit(n, 4);
    LastDigit(n / 10, 3);
    assert n / 10 / 10 == n / 100 && n / 100 / 10 == n / 1000;
    FieldDigits(n / 100);
  }

  /** The time stamp of a date with a four-digit year, character by character. */
  lemma StampFormat(t: SystemTime)
    requires t.year < 10000 && t.month < 100 && t.day < 100 && t.hour < 100 && t.minute < 100 && t.second < 100
    ensures Stamp(t) ==
      [ DigitChar(t.year / 1000), DigitChar(t.year / 100 % 10), DigitChar(t.year / 10 % 10), DigitChar(t.year % 10),
        '-', DigitChar(t.month / 10), DigitChar(t.month % 10), '-', DigitChar(t.day / 10), DigitChar(t.day % 10),
        'T', DigitChar(t.hour / 10), DigitChar(t.hour % 10), ':', DigitChar(t.minute / 10), DigitChar(t.minute % 10),
        ':', DigitChar(t.second / 10), DigitChar(t.second % 10), '.', '0', '0', '0', 'Z' ]
  {
    hide Padded;
    YearDigits(t.year);
    FieldDigits(t.month); FieldDigits(t.day);
    FieldDigits(t.hour); FieldDigits(t.minute); FieldDigits(t.second);
  }

  // ---- Saving the state ----

  /** One call of SaveState: the state name, the state saved, its document, and whether the
      heartbeat file was open and the mutex held at that moment. */
  datatype Save = Save(name: string, state: UpdateState, doc: string, beating: bool, locked: bool)

  function Names(saves: seq<Save>): seq<string> {
    seq(|saves|, i requires 0 <= i < |saves| => saves[i].name)
  }

  function SavedState(s: UpdateState, name: string, error: string, now: SystemTime): UpdateState {
    s.(state := name, owner := "agent",
       error := if error != "" then error else s.error,
       completedAt := if name == "failed" || name == "installed" then Stamp(now) else s.completedAt)
  }

  /**
   * What a save changes: the owner and the state, an error only if there is a new one, and the
   * completion time only when the run failed or the installation is done.
   */
  lemma SavedFields(s: UpdateState, name: string, error: string, now: SystemTime)
    ensures var t := SavedState(s, name, error, now);
      && t.state == name && t.owner == "agent"
      && (error == "" ==> t.error == s.error) && (error != "" ==> t.error == error)
      && (name == "failed" || name == "installed" ==> t.completedAt == Stamp(now))
      && (name == "installing" || name == "restarting" ==> t.completedAt == s.completedAt)
      && t == s.(state := t.state, owner := t.owner, error := t.error, completedAt := t.completedAt)
  {
    hide Stamp;
  }

  /** The fields the agent was started with, which no save may change. */
  predicate SameUpdate(s: UpdateState, t: UpdateState) {
    && s.schema == t.schema && s.installerPath == t.installerPath && s.targetVersion == t.targetVersion
    && s.expectedSha256 == t.expectedSha256 && s.appPid == t.appPid && s.appExePath == t.appExePath
    && s.logPath == t.logPath && s.createdAt == t.createdAt
    && (s.completedAt != "" ==> t.completedAt != "")
  }

  /** The saved document validates and is read back as the state that was saved. */
  predicate ReadsBack(hash: Hash, save: Save) {
    && Valid(hash, Parsed(save.doc))
    && ParseUpdateState(Parsed(save.doc)) == Some(save.state.(checksum := Digest(hash, save.state)))
  }

  ghost predicate GoodHash(hash: Hash) {
    forall text :: hash(text) != "" && EscapeClosed(hash(text))
  }

  /** What a run relies on for its documents: a working hash and a complete, clean start. */
  ghost predicate GoodStart(hash: Hash, s0: UpdateState) {
    GoodHash(hash) && CleanState(s0) && Complete(s0)
  }

  predicate SoundSave(hash: Hash, s0: UpdateState, save: Save) {
    && save.doc == Printed(hash, save.state) && ReadsBack(hash, save) && SameUpdate(s0, save.state)
    && save.state.state == save.name && save.state.owner == "agent"
    && CleanState(save.state) && Complete(save.state)
  }

  /** Every saved document is sound, and a completion time once saved is never cleared. */
  predicate SoundSaves(hash: Hash, s0: UpdateState, saves: seq<Save>) {
    && (forall i :: 0 <= i < |saves| ==> SoundSave(hash, s0, saves[i]))
    && (forall i, j :: 0 <= i < j < |saves| ==> SameUpdate(saves[i].state, saves[j].state))
  }

  /** The invariant of a run: sound saves, and a state in memory that can be saved again. */
  predicate SoundRun(hash: Hash, s0: UpdateState, s: UpdateState, saves: seq<Save>) {
    && SameUpdate(s0, s) && CleanState(s) && Complete(s) && SoundSaves(hash, s0, saves)
    && (forall i :: 0 <= i < |saves| ==> SameUpdate(saves[i].state, s))
  }

  lemma SavedDocument(hash: Hash, s: UpdateState, name: string, error: string, now: SystemTime)
    requires GoodHash(hash) && CleanState(s) && Complete(s)
    requires name in STATES && EscapeClosed(name) && EscapeClosed(error)
    ensures var t := SavedState(s, name, error, now);
            && CleanState(t) && Complete(t) && SameUpdate(s, t)
            && Valid(hash, Parsed(Printed(hash, t)))
            && ParseUpdateState(Parsed(Printed(hash, t))) == Some(t.(checksum := Digest(hash, t)))
  {
    hide Parsed, Printed, Valid, ParseUpdateState, ChecksumMatches, Stamp, STATES, Entries, Render;
    StampPlain(now);
    PlainIsClosed("agent");
    var t := SavedState(s, name, error, now);
    GoodDigest(hash, t);
    RoundTrip(hash, t);
  }

  lemma GoodDigest(hash: Hash, s: UpdateState)
    requires GoodHash(hash)
    ensures Digest(hash, s) != "" && EscapeClosed(Digest(hash, s))
  {
    hide Entries, Render, EscapeClosed;
  }

  lemma SoundAfterSave(hash: Hash, s0: UpdateState, s: UpdateState, saves: seq<Save>,
                       name: string, error: string, now: SystemTime, save: Save)
    requires GoodHash(hash) && SoundRun(hash, s0, s, saves)
    requires name in STATES && EscapeClosed(name) && EscapeClosed(error)
    requires save.name == name && save.state == SavedState(s, name, error, now)
    requires save.doc == Printed(hash, save.state)
    ensures SoundRun(hash, s0, save.state, saves + [save])
  {
    hide Parsed, Printed, Valid, ParseUpdateState, Stamp, STATES, Digest, CleanState, Complete, EscapeClosed;
    SavedDocument(hash, s, name, error, now);
  }

  lemma KnownNames()
    ensures "failed" in STATES && "installing" in STATES && "installed" in STATES && "restarting" in STATES
    ensures EscapeClosed("failed") && EscapeClosed("installing") && EscapeClosed("installed")
    ensures EscapeClosed("restarting") && EscapeClosed("")
  {
    hide EscapeClosed, STATES;
    PlainIsClosed("failed"); PlainIsClosed("installing"); PlainIsClosed("installed");
    PlainIsClosed("restarting"); PlainIsClosed("");
    InStates();
  }

  lemma InStates()
    ensures "failed" in STATES && "installing" in STATES && "installed" in STATES && "restarting" in STATES
  {
    assert STATES[2] == "installing" && STATES[3] == "installed" && STATES[4] == "restarting" && STATES[6] == "failed";
  }

  lemma KnownErrors()
    ensures EscapeClosed("App exit timeout") && EscapeClosed("Install failed")
    ensures EscapeClosed("Post-install verification failed") && EscapeClosed("App restart failed")
  {
    hide EscapeClosed;
    ExitErrorClosed();
    InstallErrorClosed();
    VerifyErrorClosed();
    RestartErrorClosed();
  }

  lemma ExitErrorClosed()
    ensures EscapeClosed("App exit timeout")
  {
    hide EscapeClosed;
    PlainIsClosed("App exit timeout");
  }

  lemma InstallErrorClosed()
    ensures EscapeClosed("Install failed")
  {
    hide EscapeClosed;
    PlainIsClosed("Install failed");
  }

  lemma VerifyErrorClosed()
    ensures EscapeClosed("Post-install verification failed")
  {
    hide EscapeClosed;
    PlainIsClosed("Post-install verification failed");
  }

  lemma RestartErrorClosed()
    ensures EscapeClosed("App restart failed")
  {
    hide EscapeClosed;
    PlainIsClosed("App restart failed");
  }

  // ---- What a run may do ----

  function SetupCode(env: Env, attempt: nat): DWORD {
    ExitCodeOf(env.setup(attempt))
  }

  predicate AppGone(env: Env) {
    !env.appRunning || env.exitsInTime || env.exitsWhenKilled
  }

  predicate InstallerTrusted(env: Env) {
    env.installerExists && env.installerSize >= MIN_INSTALLER_SIZE && env.installerSigned
  }

  /** Number of polls after which the loop waiting for the executable ends. */
  function Polls(env: Env, i: nat): (n: nat)
    requires i <= 20
    ensures i <= n <= 20
    ensures n == 20 || env.exeSeen(n)
    ensures forall j :: i <= j < n ==> !env.exeSeen(j)
    decreases 20 - i
  {
    if i == 20 || env.exeSeen(i) then i else Polls(env, i + 1)
  }

  /** After the polling the executable is looked for again, then its version and signature are checked. */
  predicate Verified(env: Env, target: string) {
    env.exeSeen(Polls(env, 0) + 1) && VersionCheck.Accepts(env.exeVersion, target) && env.exeSigned
  }

  /** The state read from the file at the start of a run, when reading succeeds. */
  function StartState(hash: Hash, file: Option<string>): Option<UpdateState> {
    if file.Some? && Valid(hash, Parsed(file.value)) then ParseUpdateState(Parsed(file.value)) else None
  }

  /** Validation passed but reading a number threw. */
  predicate ReadThrows(hash: Hash, file: Option<string>) {
    file.Some? && Valid(hash, Parsed(file.value)) && ParseUpdateState(Parsed(file.value)) == None
  }

  /** How the run ends after `k` starts of the installer. */
  function ExpectedExit(hash: Hash, env: Env, file: Option<string>, k: nat): Exit {
    if !env.alone then INVALID_STATE
    else if ReadThrows(hash, file) then Crashed
    else if StartState(hash, file).None? || !InstallerTrusted(env) then INVALID_STATE
    else if !AppGone(env) then APP_EXIT_TIMEOUT
    else if !IsInstallSuccess(SetupCode(env, k)) then INSTALL_FAIL
    else if !Verified(env, StartState(hash, file).value.targetVersion) then VERIFY_FAILED
    else if !env.launches then RESTART_FAILED
    else SUCCESS
  }

  /** The installer is started once more only after a retryable code, and at most three times. */
  predicate RetriesRight(env: Env, k: nat) {
    && 1 <= k <= INSTALL_MAX_RETRIES
    && (forall j :: 1 <= j < k ==> IsInstallRetryable(SetupCode(env, j)))
    && (k < INSTALL_MAX_RETRIES ==> !IsInstallRetryable(SetupCode(env, k)))
  }

  /** What follows the installing saves, for each exit code past the installing phase. */
  function Ending(code: int): seq<string> {
    if code == 2 then ["failed"]
    else if code == 3 then ["installed", "failed"]
    else if code == 4 then ["installed", "restarting", "failed"]
    else ["installed", "restarting", "installed"]
  }

  /** The sequences of saved states, with the exit each belongs to, after `k` installer starts. */
  predicate TraceLanguage(names: seq<string>, k: nat, exit: Exit) {
    match exit
    case Crashed => k == 0 && names == []
    case Code(5) => k == 0 && names == []
    case Code(1) => k == 0 && names == ["failed"]
    case Code(c) => c in {0, 2, 3, 4} && 1 <= k <= 3 && names == seq(k, _ => "installing") + Ending(c)
  }

  /** The files after some saves, each answered by the file system in its own way. */
  function FilesAfter(initial: Files, saves: seq<Save>, io: nat -> Io): Files {
    if saves == [] then initial
    else
      var n := |saves| - 1;
      AfterSteps(FilesAfter(initial, saves[..n], io), saves[n].doc, io(n), 5)
  }

  lemma FilesAfterOne(initial: Files, saves: seq<Save>, save: Save, io: nat -> Io)
    ensures FilesAfter(initial, saves + [save], io)
         == AfterSteps(FilesAfter(initial, saves, io), save.doc, io(|saves|), 5)
  {
    assert (saves + [save])[..|saves|] == saves;
  }

  /** The error a failing run leaves in the state file. */
  function ErrorText(exit: Exit): string {
    if exit == APP_EXIT_TIMEOUT then "App exit timeout"
    else if exit == INSTALL_FAIL then "Install failed"
    else if exit == VERIFY_FAILED then "Post-install verification failed"
    else if exit == RESTART_FAILED then "App restart failed"
    else ""
  }

  lemma ErrorTexts()
    ensures ErrorText(APP_EXIT_TIMEOUT) == "App exit timeout" != ""
    ensures ErrorText(INSTALL_FAIL) == "Install failed" != ""
    ensures ErrorText(VERIFY_FAILED) == "Post-install verification failed" != ""
    ensures ErrorText(RESTART_FAILED) == "App restart failed" != ""
    ensures ErrorText(SUCCESS) == ErrorText(INVALID_STATE) == ErrorText(Crashed) == ""
  {
  }

  /** The saves of the installing phase: one per attempt, with the heartbeat open. */
  predicate InstallLog(saves: seq<Save>) {
    forall j :: 0 <= j < |saves| ==>
      && saves[j].name == "installing" && saves[j].beating && saves[j].locked
      && saves[j].state.attempt == j + 1
  }

  class UpdateAgent {
    const hash: Hash
    const env: Env
    const store: StateStore
    ghost const initial: Files   // the files when the agent was started
    var state: UpdateState
    var saves: seq<Save>      // every SaveState call so far
    var locked: bool          // the singleton mutex is held
    var releases: nat
    var beating: bool         // the heartbeat file is open
    var runs: nat             // starts of the installer
    var waited: nat           // milliseconds of waiting scheduled so far

    constructor (hash: Hash, env: Env, store: StateStore)
      ensures this.hash == hash && this.env == env && this.store == store && initial == store.Contents()
      ensures saves == [] && !locked && releases == 0 && !beating && runs == 0 && waited == 0
    {
      this.hash, this.env, this.store, initial := hash, env, store, store.Contents();
      state := UpdateState(0, "", "", "", "", 0, "", "", "", "", "", "", 1, "");
      saves, locked, releases, beating, runs, waited := [], false, 0, false, 0, 0;
    }

    /** What is known of the files and, for a good start, of the documents saved so far. */
    ghost predicate Sound(s0: UpdateState)
      reads this, store
    {
      && (GoodStart(hash, s0) ==> SoundRun(hash, s0, state, saves))
      && store.Contents() == FilesAfter(initial, saves, env.io)
    }

    method SaveState(newState: string, error: string, ghost s0: UpdateState)
      requires Sound(s0) && newState in STATES && EscapeClosed(newState) && EscapeClosed(error)
      modifies `state, `saves, store
      ensures state == SavedState(old(state), newState, error, env.clock(|old(saves)|))
      ensures saves == old(saves) + [Save(newState, state, Printed(hash, state), beating, locked)]
      ensures store.Contents()
           == AfterSteps(old(store.Contents()), Printed(hash, state), env.io(|old(saves)|), 5)
      ensures Sound(s0)
    {
      hide SoundRun, Printed, STATES, EscapeClosed, Stamp, AfterSteps, GoodHash;
      ghost var before := state;
      var n := |saves|;
      state := state.(state := newState);
      state := state.(owner := "agent");
      if error != "" { state := state.(error := error); }
      if newState == "failed" || newState == "installed" {
        state := state.(completedAt := Stamp(env.clock(n)));
      }
      var ok := store.WriteUpdateState(hash, state, env.io(n));
      ghost var save := Save(newState, state, Printed(hash, state), beating, locked);
      if GoodStart(hash, s0) {
        SoundAfterSave(hash, s0, before, saves, newState, error, env.clock(n), save);
      }
      FilesAfterOne(initial, saves, save, env.io);
      saves := saves + [Save(newState, state, Printed(hash, state), beating, locked)];
    }

    method DoBoot() returns (ok: bool)
      modifies `locked
      ensures ok == env.alone && locked == (ok || old(locked))
    {
      if !env.alone { return false; }
      locked := true;
      ok := true;
    }

    method Release()
      modifies `locked, `releases
      ensures !locked && releases == old(releases) + (if old(locked) then 1 else 0)
    {
      if locked {
        locked := false;
        releases := releases + 1;
      }
    }

    /** DoReading; `thrown` when reading a number raised an exception. */
    method DoReading() returns (ok: bool, thrown: bool)
      modifies `state
      ensures thrown == ReadThrows(hash, store.main)
      ensures ok == (StartState(hash, store.main).Some? && InstallerTrusted(env))
      ensures ok ==> env.installerExists && env.installerSize >= 1_048_576 && env.installerSigned
      ensures StartState(hash, store.main).Some? && !ok ==>
                !env.installerExists || env.installerSize < 1_048_576 || !env.installerSigned
      ensures StartState(hash, store.main).Some? ==> state == StartState(hash, store.main).value
    {
      hide Valid, Parsed, ParseUpdateState;
      ok, thrown := false, false;
      if store.main == None { return; }
      var json := ParseFlatJson(store.main.value);
      if json == map[] { EmptyIsInvalid(hash); return; }
      var valid := ValidateStateFile(hash, json);
      if !valid { return; }
      var parsed := ParseUpdateState(json);
      if parsed.None? { return false, true; }
      state := parsed.value;
      if !env.installerExists { return; }
      if env.installerSize < MIN_INSTALLER_SIZE { return; }
      if !env.installerSigned { return; }
      ok := true;
    }

    method DoWaitingAppExit() returns (ok: bool)
      modifies `waited
      ensures ok == AppGone(env)
      ensures ok <==> !env.appRunning || env.exitsInTime || env.exitsWhenKilled
      ensures waited == old(waited) + if !env.appRunning then 0 else if env.exitsInTime then 60_000 else 65_000
    {
      if !env.appRunning { return true; }
      waited := waited + WAIT_FOR_APP_EXIT_MS;
      var exited := env.exitsInTime;
      if !exited {
        waited := waited + TERMINATE_WAIT_MS;
        exited := env.exitsWhenKilled;
        if !exited { return false; }
      }
      ok := true;
    }

    /** One attempt: save the state, run the installer, note its exit code. */
    method Attempt(attempt: nat, ghost s0: UpdateState) returns (exitCode: DWORD)
      requires Sound(s0) && 1 <= attempt <= INSTALL_MAX_RETRIES
      requires beating && locked && InstallLog(saves) && |saves| == attempt - 1 == runs
      modifies `state, `saves, `runs, `waited, store
      ensures Sound(s0) && InstallLog(saves) && |saves| == attempt == runs
      ensures exitCode == SetupCode(env, attempt) && state.error == old(state).error
      ensures state.targetVersion == old(state).targetVersion
      ensures waited == old(waited) + SetupWait(env.setup(attempt))
    {
      hide SoundRun, GoodStart, STATES, EscapeClosed, Printed, AfterSteps, Stamp;
      KnownNames();
      SetAttempt(attempt, s0);
      SaveState("installing", "", s0);
      var setup := env.setup(attempt);
      runs := runs + 1;
      waited := waited + SetupWait(setup);
      exitCode := ExitCodeOf(setup);
    }

    /** The retry loop. */
    method DoInstalling(ghost s0: UpdateState) returns (ok: bool)
      requires Sound(s0) && runs == 0 && !beating && locked && saves == []
      modifies `state, `saves, `beating, `runs, `waited, store
      ensures Sound(s0) && !beating
      ensures RetriesRight(env, runs) && |saves| == runs && InstallLog(saves)
      ensures ok == IsInstallSuccess(SetupCode(env, runs)) && state.error == old(state).error
      ensures state.targetVersion == old(state).targetVersion
      ensures ok <==> SetupCode(env, runs) == 0
      ensures forall j :: 1 <= j < runs ==> SetupCode(env, j) !in {0, 1, 2, 5}
      ensures runs == 3 || SetupCode(env, runs) in {0, 1, 2, 5}
      ensures waited == old(waited) + SetupWaits(env, runs) + (runs - 1) * 10_000
    {
      hide SoundRun, GoodStart, InstallLog;
      NoSavesYet();
      beating := true;
      var attempt := 1;
      while attempt <= INSTALL_MAX_RETRIES
        invariant 1 <= attempt <= INSTALL_MAX_RETRIES
        invariant Sound(s0) && beating && locked && InstallLog(saves) && state.error == old(state).error
        invariant state.targetVersion == old(state).targetVersion
        invariant runs == attempt - 1 == |saves|
        invariant forall j :: 1 <= j < attempt ==> IsInstallRetryable(SetupCode(env, j))
        invariant waited == old(waited) + SetupWaits(env, runs) + runs * 10_000
        decreases INSTALL_MAX_RETRIES - attempt
      {
        var exitCode := Attempt(attempt, s0);
        if IsInstallSuccess(exitCode) {
          beating := false;
          return true;
        }
        if attempt < INSTALL_MAX_RETRIES && IsInstallRetryable(exitCode) {
          waited := waited + INSTALL_RETRY_DELAYS[attempt];
          attempt := attempt + 1;
          continue;
        }
        beating := false;
        return false;
      }
      assert false;
    }

    method SetAttempt(attempt: nat, ghost s0: UpdateState)
      requires Sound(s0) && attempt <= INSTALL_MAX_RETRIES
      modifies `state
      ensures Sound(s0) && state == old(state).(attempt := attempt)
    {
      hide ReadsBack, Digest, STATES;
      state := state.(attempt := attempt);
    }

    /** The polling loop of DoVerifying. */
    method WaitForExe() returns (polls: nat)
      modifies `waited
      ensures polls == Polls(env, 0) && waited == old(waited) + 500 * polls
    {
      var slept := 0;
      polls := 0;
      while !env.exeSeen(polls) && slept < EXE_POLL_TIMEOUT_MS
        invariant 0 <= polls <= 20 && slept == polls * EXE_POLL_MS
        invariant Polls(env, polls) == Polls(env, 0)
        invariant waited == old(waited) + slept
        decreases 20 - polls
      {
        waited := waited + EXE_POLL_MS;
        slept := slept + EXE_POLL_MS;
        polls := polls + 1;
      }
    }

    method DoVerifying() returns (ok: bool)
      modifies `waited
      ensures ok == Verified(env, state.targetVersion)
      ensures ok <==> && env.exeSeen(Polls(env, 0) + 1) && env.exeSigned
                      && VersionCheck.Accepts(env.exeVersion, state.targetVersion)
      ensures waited == old(waited) + 500 * Polls(env, 0)
    {
      hide VersionCheck.Accepts, Polls;
      var polls := WaitForExe();
      if !env.exeSeen(polls + 1) { return false; }
      var same := VersionCheck.VerifyInstalledVersion(true, env.exeVersion, state.targetVersion);
      if !same { return false; }
      if !env.exeSigned { return false; }
      ok := true;
    }

    method DoRestarting(ghost s0: UpdateState) returns (ok: bool)
      requires Sound(s0) && !beating && locked
      modifies `state, `saves, `waited, store
      ensures Sound(s0) && ok == env.launches
      ensures Appended(old(saves), saves, "restarting") && state.error == old(state).error
      ensures waited == old(waited) + 100
    {
      hide SoundRun, GoodStart, STATES, EscapeClosed, Printed, AfterSteps, Stamp;
      KnownNames();
      SaveState("restarting", "", s0);
      waited := waited + LAUNCH_CHECK_MS;
      ok := env.launches;
    }

    method SaveInstalled(ghost s0: UpdateState)
      requires Sound(s0) && !beating && locked
      modifies `state, `saves, store
      ensures Sound(s0) && Appended(old(saves), saves, "installed") && state.error == old(state).error
      ensures state.targetVersion == old(state).targetVersion
      ensures state.completedAt != ""
    {
      hide SoundRun, GoodStart, STATES, EscapeClosed, Printed, AfterSteps, Stamp;
      KnownNames();
      StampPlain(env.clock(|saves|));
      SaveState("installed", "", s0);
    }

    /** Saves the failed state and leaves with the mutex released. */
    method Fail(error: string, ghost s0: UpdateState)
      requires Sound(s0) && locked && !beating && EscapeClosed(error)
      modifies `state, `saves, `locked, `releases, store
      ensures Sound(s0) && !locked && releases == old(releases) + 1
      ensures Appended(old(saves), saves, "failed")
      ensures error != "" ==> state.error == error
      ensures state.completedAt != ""
    {
      hide SoundRun, GoodStart, STATES, EscapeClosed, Printed, AfterSteps, Stamp;
      KnownNames();
      StampPlain(env.clock(|saves|));
      SaveState("failed", error, s0);
      Release();
    }

    /** The phases after a successful installation: verify, restart, clean up. */
    method Finish(ghost s0: UpdateState) returns (exit: Exit)
      requires Sound(s0) && locked && !beating && InstallLog(saves) && 1 <= |saves| <= 3
      modifies `state, `saves, `locked, `releases, `waited, store
      ensures exit == if !Verified(env, old(state).targetVersion) then VERIFY_FAILED
                      else if !env.launches then RESTART_FAILED else SUCCESS
      ensures TraceLanguage(Names(saves), |old(saves)|, exit) && SavesMarked(saves)
      ensures |old(saves)| <= |saves| && saves[..|old(saves)|] == old(saves)
      ensures ErrorText(exit) != "" ==> state.error == ErrorText(exit) && state.completedAt != ""
      ensures Sound(s0) && !locked && releases == old(releases) + 1
      ensures waited == old(waited) + 500 * Polls(env, 0) + if exit == VERIFY_FAILED then 0 else 100
      ensures exit == SUCCESS ==> state.completedAt != "" && state.error == old(state).error
    {
      hide SoundRun, GoodStart, EscapeClosed, AfterSteps, Names, Verified, Stamp;
      hide Appended, Extended, InstallLog, SavesMarked, TraceLanguage, ErrorText;
      ErrorTexts();
      KnownErrors();
      ghost var installs := saves;
      SaveInstalled(s0);
      ghost var verifying := saves;
      var ok := DoVerifying();
      if !ok {
        Fail("Post-install verification failed", s0);
        VerifyFailedTrace(installs, verifying, saves);
        return VERIFY_FAILED;
      }
      ok := DoRestarting(s0);
      ghost var restarting := saves;
      if !ok {
        Fail("App restart failed", s0);
        RestartFailedTrace(installs, verifying, restarting, saves);
        return RESTART_FAILED;
      }
      SaveInstalled(s0);
      SuccessTrace(installs, verifying, restarting, saves);
      Release();
      exit := SUCCESS;
    }

    /** The phases from Boot on; `initial` holds the files the agent starts with. */
    method Phases() returns (exit: Exit)
      requires saves == [] && !locked && releases == 0 && !beating && runs == 0 && waited == 0
      requires initial == store.Contents()
      modifies this, store
      ensures exit == ExpectedExit(hash, env, initial.main, runs)
      ensures store.Contents() == FilesAfter(initial, saves, env.io)
      ensures TraceLanguage(Names(saves), runs, exit)
      ensures runs > 0 ==> RetriesRight(env, runs)
      ensures runs <= |saves| && InstallLog(saves[..runs])
      ensures SavesMarked(saves) && !beating
      ensures ErrorText(exit) != "" ==> state.error == ErrorText(exit) && state.completedAt != ""
      ensures exit != Crashed ==> !locked && releases == if env.alone then 1 else 0
      ensures waited <= 1_910_100
      ensures StartState(hash, initial.main).Some? && GoodStart(hash, StartState(hash, initial.main).value)
              ==> SoundSaves(hash, StartState(hash, initial.main).value, saves)
      ensures exit == SUCCESS ==> StartState(hash, initial.main).Some? && state.completedAt != ""
      ensures exit == SUCCESS ==> state.error == StartState(hash, initial.main).value.error
    {
      hide SoundSaves, GoodStart, Valid, Parsed, ParseUpdateState, EscapeClosed, AfterSteps, Names;
      hide InstallerTrusted, AppGone, Verified, Appended, InstallLog, SavesMarked, TraceLanguage, ErrorText;
      hide SetupWaits;
      ErrorTexts();
      KnownErrors();
      NoSavesYet();
      NothingSavedIsSound(hash);
      ShortTraces();
      var ok := DoBoot();
      if !ok { return INVALID_STATE; }
      var thrown;
      ok, thrown := DoReading();
      if thrown { return Crashed; }
      if !ok {
        Release();
        return INVALID_STATE;
      }
      ghost var s0 := state;
      UnsavedIsSound(hash, s0);
      ok := DoWaitingAppExit();
      if !ok {
        Fail("App exit timeout", s0);
        FailedTrace(saves);
        return APP_EXIT_TIMEOUT;
      }
      ok := DoInstalling(s0);
      SetupWaitsBound(env, runs);
      ghost var installs := saves;
      if !ok {
        Fail("Install failed", s0);
        InstallFailedTrace(installs, saves);
        return INSTALL_FAIL;
      }
      exit := Finish(s0);
    }

    /** wWinMain, what it does in the terms of its environment. */
    method Run() returns (exit: Exit)
      requires saves == [] && !locked && releases == 0 && !beating && runs == 0 && waited == 0
      requires initial == store.Contents()
      modifies this, store
      // The installer is started exactly if this agent is alone, the state file is valid, the
      // installer is there, large enough and signed, and the application is gone.
      ensures runs > 0 <==>
                && env.alone && StartState(hash, initial.main).Some?
                && env.installerExists && env.installerSize >= 1_048_576 && env.installerSigned
                && (!env.appRunning || env.exitsInTime || env.exitsWhenKilled)
      // It is started again only on a retryable code, at most twice.
      ensures forall j :: 1 <= j < runs ==> SetupCode(env, j) !in {0, 1, 2, 5}
      ensures runs > 0 ==> runs == 3 || (runs < 3 && SetupCode(env, runs) in {0, 1, 2, 5})
      // The exit code.
      ensures exit == Crashed <==> env.alone && ReadThrows(hash, initial.main)
      ensures exit == Code(5) <==>
                || !env.alone
                || (&& !ReadThrows(hash, initial.main)
                    && (|| StartState(hash, initial.main) == None
                        || !env.installerExists || env.installerSize < 1_048_576 || !env.installerSigned))
      ensures exit == Code(1) <==>
                && env.alone && StartState(hash, initial.main).Some?
                && env.installerExists && env.installerSize >= 1_048_576 && env.installerSigned
                && env.appRunning && !env.exitsInTime && !env.exitsWhenKilled
      ensures exit == Code(2) <==> runs > 0 && SetupCode(env, runs) != 0
      ensures exit == Code(3) <==>
                && runs > 0 && SetupCode(env, runs) == 0
                && !(&& env.exeSeen(Polls(env, 0) + 1) && env.exeSigned
                     && VersionCheck.Accepts(env.exeVersion, StartState(hash, initial.main).value.targetVersion))
      ensures exit == Code(4) <==>
                && runs > 0 && SetupCode(env, runs) == 0 && !env.launches
                && env.exeSeen(Polls(env, 0) + 1) && env.exeSigned
                && VersionCheck.Accepts(env.exeVersion, StartState(hash, initial.main).value.targetVersion)
      ensures exit == Code(0) <==>
                && runs > 0 && SetupCode(env, runs) == 0 && env.launches
                && env.exeSeen(Polls(env, 0) + 1) && env.exeSigned
                && VersionCheck.Accepts(env.exeVersion, StartState(hash, initial.main).value.targetVersion)
      // The states saved, in order.
      ensures exit == Crashed || exit == Code(5) ==> saves == []
      ensures exit == Code(1) ==> Names(saves) == ["failed"]
      ensures exit == Code(2) ==> Names(saves) == seq(runs, _ => "installing") + ["failed"]
      ensures exit == Code(3) ==> Names(saves) == seq(runs, _ => "installing") + ["installed", "failed"]
      ensures exit == Code(4) ==>
                Names(saves) == seq(runs, _ => "installing") + ["installed", "restarting", "failed"]
      ensures exit == Code(0) ==>
                Names(saves) == seq(runs, _ => "installing") + ["installed", "restarting", "installed"]
      ensures runs <= |saves| && forall j :: 0 <= j < runs ==> saves[j].state.attempt == j + 1
      // Every save under the mutex, the heartbeat open in exactly the installing ones.
      ensures forall j :: 0 <= j < |saves| ==>
                saves[j].locked && (saves[j].beating <==> saves[j].name == "installing")
      ensures !beating && (exit != Crashed ==> !locked && releases == if env.alone then 1 else 0)
      ensures waited <= 1_910_100
      // The outcome in the state, and the files.
      ensures exit == Code(1) ==> state.error == "App exit timeout"
      ensures exit == Code(2) ==> state.error == "Install failed"
      ensures exit == Code(3) ==> state.error == "Post-install verification failed"
      ensures exit == Code(4) ==> state.error == "App restart failed"
      ensures exit == Code(0) ==> state.error == StartState(hash, initial.main).value.error
      ensures exit.Code? && exit != Code(5) ==> state.completedAt != ""
      ensures store.Contents() == FilesAfter(initial, saves, env.io)
      ensures StartState(hash, initial.main).Some? && GoodStart(hash, StartState(hash, initial.main).value)
              ==> SoundSaves(hash, StartState(hash, initial.main).value, saves)
    {
      hide SoundSaves, GoodStart, Valid, Parsed, ParseUpdateState, FilesAfter, Names, VersionCheck.Accepts;
      hide Verified, StartState, ReadThrows, ExpectedExit, TraceLanguage, InstallLog, SavesMarked, Polls;
      exit := Phases();
      ExitMeans(hash, env, initial.main, runs);
      RetriesMean(env, runs);
      TraceMeans(saves, runs, exit);
      MarksMean(saves, runs);
      if StartState(hash, initial.main).Some? {
        VerifiedMeans(env, StartState(hash, initial.main).value.targetVersion);
      }
      ErrorTexts();
    }
  }

  lemma VerifiedMeans(env: Env, target: string)
    ensures Verified(env, target) <==>
              && env.exeSeen(Polls(env, 0) + 1) && env.exeSigned && VersionCheck.Accepts(env.exeVersion, target)
  {
    hide VersionCheck.Accepts, Polls;
  }

  lemma ExitMeans(hash: Hash, env: Env, file: Option<string>, k: nat)
    ensures var exit, start := ExpectedExit(hash, env, file, k), StartState(hash, file);
            var trusted := env.installerExists && env.installerSize >= 1_048_576 && env.installerSigned;
            var gone := !env.appRunning || env.exitsInTime || env.exitsWhenKilled;
            var ready := env.alone && start.Some? && trusted && gone;
            && (exit == Crashed <==> env.alone && ReadThrows(hash, file))
            && (exit == Code(5) <==> !env.alone || (!ReadThrows(hash, file) && (start == None || !trusted)))
            && (exit == Code(1) <==> env.alone && start.Some? && trusted && !gone)
            && (exit == Code(2) <==> ready && SetupCode(env, k) != 0)
            && (ready && SetupCode(env, k) == 0 ==>
                  exit == if !Verified(env, start.value.targetVersion) then Code(3)
                          else if !env.launches then Code(4) else Code(0))
            && (exit in {Code(0), Code(3), Code(4)} ==> ready && SetupCode(env, k) == 0)
  {
    hide Valid, Parsed, ParseUpdateState, VersionCheck.Accepts;
  }

  lemma RetriesMean(env: Env, k: nat)
    requires k > 0 ==> RetriesRight(env, k)
    ensures forall j :: 1 <= j < k ==> SetupCode(env, j) !in {0, 1, 2, 5}
    ensures k > 0 ==> k == 3 || (k < 3 && SetupCode(env, k) in {0, 1, 2, 5})
  {
  }

  lemma TraceMeans(saves: seq<Save>, k: nat, exit: Exit)
    requires TraceLanguage(Names(saves), k, exit)
    ensures exit == Crashed || exit == Code(5) || exit == Code(1) <==> k == 0
    ensures exit == Crashed || exit == Code(5) ==> saves == []
    ensures exit == Code(1) ==> Names(saves) == ["failed"]
    ensures exit == Code(2) ==> Names(saves) == seq(k, _ => "installing") + ["failed"]
    ensures exit == Code(3) ==> Names(saves) == seq(k, _ => "installing") + ["installed", "failed"]
    ensures exit == Code(4) ==> Names(saves) == seq(k, _ => "installing") + ["installed", "restarting", "failed"]
    ensures exit == Code(0) ==> Names(saves) == seq(k, _ => "installing") + ["installed", "restarting", "installed"]
    ensures exit in {Crashed, Code(0), Code(1), Code(2), Code(3), Code(4), Code(5)}
  {
    assert |Names(saves)| == |saves|;
  }

  lemma MarksMean(saves: seq<Save>, k: nat)
    requires SavesMarked(saves) && k <= |saves| && InstallLog(saves[..k])
    ensures forall j :: 0 <= j < k ==> saves[j].state.attempt == j + 1
    ensures forall j :: 0 <= j < |saves| ==>
              saves[j].locked && (saves[j].beating <==> saves[j].name == "installing")
  {
    assert forall j :: 0 <= j < k ==> saves[..k][j] == saves[j];
  }

  /** One save was added, with the mutex held and the heartbeat closed. */
  predicate Appended(before: seq<Save>, after: seq<Save>, name: string) {
    && |after| == |before| + 1 && after[..|before|] == before
    && after[|before|].name == name && !after[|before|].beating && after[|before|].locked
  }

  /** Every save happens under the mutex, and the heartbeat is open in exactly the installing ones. */
  predicate SavesMarked(saves: seq<Save>) {
    forall i :: 0 <= i < |saves| ==> saves[i].locked && (saves[i].beating <==> saves[i].name == "installing")
  }

  /** After `base`, saves with these names were added, each as in Appended. */
  predicate Extended(base: seq<Save>, all: seq<Save>, names: seq<string>) {
    && |all| == |base| + |names| && all[..|base|] == base
    && forall i :: |base| <= i < |all| ==>
         all[i].name == names[i - |base|] && !all[i].beating && all[i].locked
  }

  lemma NoEnding(base: seq<Save>)
    ensures Extended(base, base, [])
  {
  }

  lemma ExtendOne(base: seq<Save>, mid: seq<Save>, all: seq<Save>, names: seq<string>, name: string)
    requires Extended(base, mid, names) && Appended(mid, all, name)
    ensures Extended(base, all, names + [name])
  {
    assert all[..|base|] == mid[..|base|];
  }

  lemma FullTrace(installs: seq<Save>, all: seq<Save>, code: int)
    requires code in {0, 2, 3, 4} && 1 <= |installs| <= 3
    requires InstallLog(installs) && Extended(installs, all, Ending(code))
    ensures TraceLanguage(Names(all), |installs|, Code(code)) && SavesMarked(all)
    ensures |installs| <= |all| && all[..|installs|] == installs
  {
    assert forall i :: 0 <= i < |installs| ==> all[i] == all[..|installs|][i] == installs[i];
    assert Names(all) == seq(|installs|, _ => "installing") + Ending(code);
  }

  lemma InstallFailedTrace(installs: seq<Save>, all: seq<Save>)
    requires 1 <= |installs| <= 3 && InstallLog(installs) && Appended(installs, all, "failed")
    ensures TraceLanguage(Names(all), |installs|, INSTALL_FAIL) && SavesMarked(all)
    ensures |installs| <= |all| && all[..|installs|] == installs
  {
    hide InstallLog, Appended;
    NoEnding(installs);
    ExtendOne(installs, installs, all, [], "failed");
    FullTrace(installs, all, 2);
  }

  lemma VerifyFailedTrace(installs: seq<Save>, a: seq<Save>, all: seq<Save>)
    requires 1 <= |installs| <= 3 && InstallLog(installs)
    requires Appended(installs, a, "installed") && Appended(a, all, "failed")
    ensures TraceLanguage(Names(all), |installs|, VERIFY_FAILED) && SavesMarked(all)
    ensures |installs| <= |all| && all[..|installs|] == installs
  {
    hide InstallLog, Appended;
    NoEnding(installs);
    ExtendOne(installs, installs, a, [], "installed");
    ExtendOne(installs, a, all, [] + ["installed"], "failed");
    FullTrace(installs, all, 3);
  }

  lemma RestartFailedTrace(installs: seq<Save>, a: seq<Save>, b: seq<Save>, all: seq<Save>)
    requires 1 <= |installs| <= 3 && InstallLog(installs)
    requires Appended(installs, a, "installed") && Appended(a, b, "restarting") && Appended(b, all, "failed")
    ensures TraceLanguage(Names(all), |installs|, RESTART_FAILED) && SavesMarked(all)
    ensures |installs| <= |all| && all[..|installs|] == installs
  {
    hide InstallLog, Appended;
    NoEnding(installs);
    ExtendOne(installs, installs, a, [], "installed");
    ExtendOne(installs, a, b, [] + ["installed"], "restarting");
    ExtendOne(installs, b, all, [] + ["installed"] + ["restarting"], "failed");
    FullTrace(installs, all, 4);
  }

  lemma SuccessTrace(installs: seq<Save>, a: seq<Save>, b: seq<Save>, all: seq<Save>)
    requires 1 <= |installs| <= 3 && InstallLog(installs)
    requires Appended(installs, a, "installed") && Appended(a, b, "restarting") && Appended(b, all, "installed")
    ensures TraceLanguage(Names(all), |installs|, SUCCESS) && SavesMarked(all)
    ensures |installs| <= |all| && all[..|installs|] == installs
  {
    hide InstallLog, Appended;
    NoEnding(installs);
    ExtendOne(installs, installs, a, [], "installed");
    ExtendOne(installs, a, b, [] + ["installed"], "restarting");
    ExtendOne(installs, b, all, [] + ["installed"] + ["restarting"], "installed");
    FullTrace(installs, all, 0);
  }

  lemma ShortTraces()
    ensures TraceLanguage(Names([]), 0, INVALID_STATE) && TraceLanguage(Names([]), 0, Crashed)
    ensures SavesMarked([])
  {
    assert Names([]) == [];
  }

  lemma FailedTrace(saves: seq<Save>)
    requires Appended([], saves, "failed")
    ensures TraceLanguage(Names(saves), 0, APP_EXIT_TIMEOUT) && SavesMarked(saves)
  {
    assert Names(saves) == ["failed"];
  }

  lemma NoSavesYet()
    ensures InstallLog([])
  {
  }

  lemma EmptyIsInvalid(hash: Hash)
    ensures !Valid(hash, map[])
  {
    InvalidWithoutChecksum(hash, map[]);
  }

  lemma UnsavedIsSound(hash: Hash, s0: UpdateState)
    ensures GoodStart(hash, s0) ==> SoundRun(hash, s0, s0, [])
  {
    hide CleanState, Complete;
  }

  lemma NothingSavedIsSound(hash: Hash)
    ensures forall s :: SoundSaves(hash, s, [])
  {
  }

  /** A run that starts from a document the writer printed starts well. */
  lemma PrintedStart(hash: Hash, s: UpdateState)
    requires GoodHash(hash) && CleanState(s) && Complete(s)
    ensures StartState(hash, Some(Printed(hash, s))) == Some(s.(checksum := Digest(hash, s)))
    ensures GoodStart(hash, StartState(hash, Some(Printed(hash, s))).value)
  {
    hide Valid, Parsed, Printed, ParseUpdateState, Entries, Render, STATES, EscapeClosed;
    GoodDigest(hash, s);
    RoundTrip(hash, s);
  }

  /** After a crash, the next run starts well from any document an earlier run saved. */
  lemma SavedStart(hash: Hash, s0: UpdateState, save: Save)
    requires GoodStart(hash, s0) && SoundSave(hash, s0, save)
    ensures StartState(hash, Some(save.doc)) == Some(save.state.(checksum := Digest(hash, save.state)))
    ensures GoodStart(hash, StartState(hash, Some(save.doc)).value)
    ensures SameUpdate(s0, StartState(hash, Some(save.doc)).value)
  {
    hide Valid, Parsed, ParseUpdateState, STATES, EscapeClosed, Digest;
  }

  /** A run for a four-part target succeeds only if the first three numbers are the installed ones. */
  lemma SuccessIsInstalled(hash: Hash, env: Env, file: Option<string>, k: nat,
                           target: VersionCheck.FileVersion, prefixed: bool)
    requires ExpectedExit(hash, env, file, k) == SUCCESS
    requires StartState(hash, file).value.targetVersion
          == (if prefixed then "v" else "") + VersionCheck.FullText(target)
    ensures env.exeVersion.Some? && IsInstallSuccess(SetupCode(env, k)) && env.exeSigned && InstallerTrusted(env)
    ensures var v := env.exeVersion.value;
            v.major == target.major && v.minor == target.minor && v.build == target.build
  {
    hide StartState, ReadThrows, VersionCheck.FullText, VersionCheck.Accepts;
    SuccessIsAccepted(hash, env, file, k);
    VersionCheck.AcceptsFourParts(env.exeVersion.value, target, prefixed);
  }

  lemma SuccessIsAccepted(hash: Hash, env: Env, file: Option<string>, k: nat)
    requires ExpectedExit(hash, env, file, k) == SUCCESS
    ensures StartState(hash, file).Some?
    ensures VersionCheck.Accepts(env.exeVersion, StartState(hash, file).value.targetVersion)
    ensures env.exeVersion.Some?
  {
    hide StartState, ReadThrows;
  }

  // ---- The state file whenever the agent stops ----

  /**
   * The text of the state file is invalid, or the next run starts well from it with the same
   * update, no completion time cleared.
   */
  ghost predicate Resumable(hash: Hash, s0: UpdateState, text: string) {
    Valid(hash, Parsed(text)) ==>
      && StartState(hash, Some(text)).Some?
      && GoodStart(hash, StartState(hash, Some(text)).value)
      && SameUpdate(s0, StartState(hash, Some(text)).value)
  }

  ghost predicate FileResumable(hash: Hash, s0: UpdateState, f: Files) {
    f.main.Some? ==> Resumable(hash, s0, f.main.value)
  }

  /** However little of a saved document reached the disk, a run can resume from it or rejects it. */
  lemma FlushedResumable(hash: Hash, s0: UpdateState, save: Save, io: Io)
    requires GoodStart(hash, s0) && SoundSave(hash, s0, save)
    ensures Resumable(hash, s0, Flushed(save.doc, io))
  {
    hide Valid, Parsed, Printed, ParseUpdateState, STATES, EscapeClosed, Digest, GoodHash, CleanState, Complete;
    GoodDigest(hash, save.state);
    TornWrite(hash, save.state, Flushed(save.doc, io));
    SavedStart(hash, s0, save);
  }

  /** Every step of a replacement keeps the state file resumable. */
  lemma StepResumable(hash: Hash, s0: UpdateState, f: Files, save: Save, io: Io, step: nat)
    requires GoodStart(hash, s0) && SoundSave(hash, s0, save) && FileResumable(hash, s0, f)
    ensures FileResumable(hash, s0, AfterSteps(f, save.doc, io, step))
  {
    hide Resumable, GoodStart, SoundSave, Flushed;
    FlushedResumable(hash, s0, save, io);
  }

  lemma {:induction false} SavesResumable(hash: Hash, s0: UpdateState, f: Files, saves: seq<Save>, io: nat -> Io)
    requires GoodStart(hash, s0) && FileResumable(hash, s0, f)
    requires forall i :: 0 <= i < |saves| ==> SoundSave(hash, s0, saves[i])
    ensures FileResumable(hash, s0, FilesAfter(f, saves, io))
  {
    hide FileResumable, GoodStart, SoundSave, AfterSteps;
    if saves != [] {
      var n := |saves| - 1;
      SavesResumable(hash, s0, f, saves[..n], io);
      StepResumable(hash, s0, FilesAfter(f, saves[..n], io), saves[n], io(n), 5);
    }
  }

  /**
   * Wherever the agent stops, after any save and any step of the next one, whatever the file
   * system answered, the state file is gone, invalid, or starts the same update again.
   */
  lemma StopsResumable(hash: Hash, s0: UpdateState, f: Files, saves: seq<Save>, io: nat -> Io, i: nat, step: nat)
    requires GoodStart(hash, s0) && StartState(hash, f.main) == Some(s0)
    requires SoundSaves(hash, s0, saves) && i < |saves|
    ensures FileResumable(hash, s0, AfterSteps(FilesAfter(f, saves[..i], io), saves[i].doc, io(i), step))
  {
    hide GoodStart, SoundSave, AfterSteps, Valid, Parsed, ParseUpdateState, FilesAfter;
    assert FileResumable(hash, s0, f);
    SavesResumable(hash, s0, f, saves[..i], io);
    StepResumable(hash, s0, FilesAfter(f, saves[..i], io), saves[i], io(i), step);
  }

  /**
   * When the file system obeys the last save, whatever it did with the earlier ones, the state
   * file holds that document and no temp file is left.
   */
  lemma LastSaveOnDisk(f: Files, saves: seq<Save>, io: nat -> Io)
    requires saves != []
    requires var n := |saves| - 1;
             io(n).opens && io(n).flushed >= |saves[n].doc| && MoveWorks(FilesAfter(f, saves[..n], io), io(n))
    ensures FilesAfter(f, saves, io) == Files(Some(saves[|saves| - 1].doc), None)
  {
    var n := |saves| - 1;
    assert saves[n].doc[..|saves[n].doc|] == saves[n].doc;
  }
}
