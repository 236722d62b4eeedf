# Verified model of the smart-board update agent and its backend

This project models the parts of the IntelliAttend repository that keep state or depend on an
exact text format, and proves what they guarantee. `dafny verify dfyconfig.toml` checks all of it.

## What is modelled

**The update agent (C++).** `update_state.json` is the contract between the board application and
the update agent.

* `Text`, `FlatJson`, `Document`, `ParsedValues`, `StateFile`, `StateFileProperties` and
  `StateFileExact` model the hand-written parser, the printer and the checksum. Strings are printed
  raw and never unescaped, so everything rests on one condition: a field is *escape-closed* when the
  parser's scan, which skips two characters at a backslash, meets no bare quote in it and ends
  exactly at its end. A printed string field is read back exactly when it is escape-closed, and a
  whole state exactly when all its strings are (`StateFileExact.RoundTripExact`). The behaviour of
  every torn write follows. The checksum, in turn, determines the covered fields of any text that is
  accepted, escape-closed or not (`StateFileExact.SameChecksumSameDocument`).
* `Store` is the replace-by-rename of the state file, step by step.
* `Agent` is one run of the agent, from Boot to Done, over every answer of the operating system.
  `UpdateAgent.Run` states the language of saved states, the exit code, retries, waiting time,
  mutex, heartbeat, error text, the files left on disk, and that every document saved can be read
  again. `Agent.StopsResumable` joins parser, torn writes, file steps and runs: wherever the agent
  stops, its state file is absent, rejected, or resumes the same update.
* `Singleton` interleaves any number of agent processes around the named mutex and the marker file.
* `VersionCheck` is the check of the installed version against the expected one.

**The backend (Python).**

* `BoardChannel` is the admin command channel, with coroutines that switch only where they await.
* `RateLimiter` is the sliding-window limiter, with separate clock readings for check and record.
* `Attendance` is the upsert of submitted attendance; `History` the grouping of past sessions.
* `Registration` is initiate/verify/complete/deregister under commit-or-roll-back transactions.
* `QrToken` is QR token validation, with base64 and `int()` written out.
* `JsonText`, `StringOrder`, `Manifest` and `Schedule` are the hydration payload: its canonical
  text, rosters and weekly schedule.

`hash`, `mac`, `otpHash` and the UTF-8 codec are function parameters. What a theorem needs of them
(injective, not empty, no colon, decoding inverts encoding) is a `requires` of that theorem. Clock
readings and the answers of the file system, the installer and other processes are parameters too.

Code that changes state step by step is a method or a class here (the parser's cursors, the
printer's appended text, the agent, the file store, the limiter's buckets, the command channel's two
dictionaries, the attendee table, the registration session); each is proved equal to a
specification function or relation, and the theorems are about those.

## Where the code differs from its comments

* `json_reader.cpp:190` calls the replacement atomic. The old file is deleted before the new one is
  moved, and a failed move deletes the new one: both are lost (`Store.BothFilesLost`).
* Validation accepts `msi_path` in place of `installer_path`, but the checksum does not cover it
  (`StateFileProperties.ChecksumIgnoresMsiPath`): one checksum goes with any installer
  (`UncoveredInstaller`).
* Validation reads `schema` as a number but not `app_pid` or `attempt`; a validated file can still
  make the agent throw, exactly then (`StateFileProperties.ReadingMayThrow`, with a document in
  `ThrowingDocument`). A run that ends so is `Crashed`.
* `kInstallRetryDelays[0]` is never used: the two possible delays are both ten seconds.
* `main.cpp:385-387` and `main.cpp:420-422` say the marker can never go stale and is there while an
  agent runs. A marker is stale exactly when its writer was killed (`Singleton.StaleExactly`), and a
  running agent's marker is missing exactly when the last thing that happened to it was the exit of
  another agent (`Singleton.MissingExactly`), a losing second one for instance.
* `main.py:1311` says past days are sorted chronologically. They are sorted by a text that begins
  with the month's name; `History.PastChronological` says for which days that is the same order.
* `disconnect` and a failed send drop whatever socket is registered for the board. A board's newest
  socket is reached exactly until some socket of that board closes or fails a command
  (`BoardChannel.RegisteredIsCurrent`), an older one included (`BoardChannel.StaleCloseStrands`,
  `BoardChannel.StaleSendStrands`).
* The limit shown for general requests is 60, so it is the one in force only if it was configured so
  (`RateLimiter.RateLimitMiddleware.ShownLimit`). Refusing a request whose client address is unknown
  fails in the log line instead of raising the 429 exception.
* A failed OTP attempt is counted and then rolled back with the error it raises, so no stored OTP
  ever counts an attempt or is locked (`Registration.NeverLocked`).
* Roster keys join a section and a course code with an underscore, so two pairs can share one; then
  the iteration order of a set decides which roster is stored (`Manifest.RosterOrderExact`).

## Model

| member | source | states |
|---|---|---|
| FlatJson.SkipString | windows/update_agent/json_reader.cpp:51-59 | the inner scan ends at the first bare quote, or at the end of the text, a backslash taking the next character with it |
| FlatJson.ReadFieldAt | windows/update_agent/json_reader.cpp:27-74 | one turn of the cursor loop reads the field, or breaks, exactly as the suffix-by-suffix reading says, and the cursor always moves forward |
| FlatJson.ParseFlatJson | windows/update_agent/json_reader.cpp:19-78 | on every text, well formed or not, the loop terminates with the map the suffix-by-suffix reading gives |
| Document.StringScan | windows/update_agent/json_reader.cpp:52-59 | a value followed by a quote scans to exactly its own end if and only if it is escape-closed |
| Document.ScannedIsClosed | windows/update_agent/json_reader.cpp:52-60 | every string value the parser reads from a closed string is escape-closed |
| Document.FieldReadsBack | windows/update_agent/json_reader.cpp:36-61 | a printed string field is read back unchanged if and only if its value is escape-closed, whatever text follows |
| Document.ReadCleanEntry | windows/update_agent/json_reader.cpp:33-74 | a printed field with a clean value gives its key and value and leaves just the text after its comma |
| Document.ReadBody | windows/update_agent/json_reader.cpp:27-77 | a printed list of clean fields reads as the map it denotes, later keys overriding earlier ones |
| Document.ParseRender | windows/update_agent/json_reader.cpp:19-78 | parsing inverts printing for every list of clean fields |
| Document.RenderForms | windows/update_agent/json_reader.cpp:160-188 | how entries are written: braces, quoted keys, colons, quotes around text values, commas between |
| Document.CutBody | windows/update_agent/json_reader.cpp:27-77 | a printed list cut anywhere yields no key the list does not have |
| Document.CutLast | windows/update_agent/json_reader.cpp:48-61 | a last string field cut inside its value yields a prefix of that value and nothing else |
| Document.BackslashRunsOn | windows/update_agent/json_reader.cpp:52-61 | a value ending in a lone backslash swallows its own quote, the comma and the quote of the next key |
| Document.BraceFound | windows/update_agent/json_reader.cpp:22-26 | text before the first brace is ignored; without a brace nothing is read |
| Document.LeadSkipped | windows/update_agent/json_reader.cpp:28-31 | blanks, tabs and line ends before a field are skipped |
| Document.GapSkipped | windows/update_agent/json_reader.cpp:41-44 | colons, blanks and tabs in any number stand between a key and its value |
| Document.BareValueEnds | windows/update_agent/json_reader.cpp:62-68 | an unquoted value ends at a comma, brace or line end, and blanks after it do not count |
| Document.CommaSkipped | windows/update_agent/json_reader.cpp:72-74 | after a value blanks, tabs and one comma are skipped, no line end |
| ParsedValues.TurnReads | windows/update_agent/json_reader.cpp:33-74 | whatever the text, a value read is quoted, with every quote in it after a backslash, or bare and stands in the text right behind its key and colon |
| ParsedValues.ValuesInseparable | windows/update_agent/json_reader.cpp:19-78 | whatever the text, no value the parser reads contains a comma followed by a quote |
| ParsedValues.InOneEntry | windows/update_agent/json_reader.cpp:162-188 | a stretch of a printed list without comma or brace lies inside one of its entries |
| ParsedValues.InStringEntry | windows/update_agent/json_reader.cpp:63-67 | a key and bare value that the parser finds inside a printed string stand in its value, which is longer and not escape-closed |
| ParsedValues.AllFoundAllClosed | windows/update_agent/json_reader.cpp:19-78 | if every string of a printed list that is not escape-closed is still found under some ordinary key, there is none |
| ParsedValues.BodyInjective | windows/update_agent/checksum.cpp:73-94 | a printed list whose values lack the separator determines the list |
| Text.StoIDecimal | windows/update_agent/json_reader.cpp:141-153 | a printed 32-bit integer is read back by `std::stoi` |
| Text.StoIReads | windows/update_agent/json_reader.cpp:141-153 | `std::stoi` reads white space, one sign and the first run of digits, and throws exactly outside 32 bits |
| Text.StoIThrows | windows/update_agent/json_reader.cpp:115-118 | it throws where no digit follows white space |
| Text.DecimalExamples | windows/update_agent/json_reader.cpp:162 | the printed text of three integers |
| StateFile.VerifyChecksum | windows/update_agent/checksum.cpp:60-98 | the key-by-key rebuild hashes exactly the rendering of the present canonical keys in order, commas only between entries |
| StateFile.CheckRequired | windows/update_agent/json_reader.cpp:95-110 | the loop accepts exactly when every required field is present and filled, `msi_path` standing in for the installer path |
| StateFile.IsKnownState | windows/update_agent/json_reader.cpp:121-131 | the state loop accepts exactly the eight listed names |
| StateFile.ValidateStateFile | windows/update_agent/json_reader.cpp:95-137 | validation accepts exactly the maps with filled fields, a schema number of at most 1, a known state and a matching checksum |
| StateFileProperties.ValidMeans | windows/update_agent/json_reader.cpp:95-137 | validation in literal fields: the ten filled fields, the installer or its old name, a schema number of at most 1, one of seven states, the checksum |
| StateFileProperties.ReadDefaults | windows/update_agent/json_reader.cpp:142-152 | the values read where owner, error, completion time or the new installer key are missing |
| StateFile.BuildDocument | windows/update_agent/json_reader.cpp:158-188 | the text built by appending is the rendering of the state's entries followed by the digest of their own rendering |
| StateFileProperties.HeadPrinted | windows/update_agent/json_reader.cpp:162-170 | the first nine fields of a document and their order |
| StateFileProperties.TailPrinted | windows/update_agent/json_reader.cpp:171-178 | the remaining fields in all four combinations of error and completion time |
| StateFile.CloseDocument | windows/update_agent/json_reader.cpp:180-188 | replacing the last comma by a brace gives exactly the text the verifier rebuilds and hashes |
| StateFileProperties.CanonicalOfLoad | windows/update_agent/checksum.cpp:66-94 | fields printed in canonical order are what the verifier collects again from the parsed map |
| StateFileProperties.LoadValue | windows/update_agent/json_reader.cpp:70 | in canonical order no key repeats, so every field keeps its own value in the map |
| StateFileProperties.ParsePrinted | windows/update_agent/json_reader.cpp:158-188 | a document printed from a clean state parses to its fields and checksum |
| StateFileProperties.PayloadOfPrinted | windows/update_agent/checksum.cpp:60-98 | the payload rebuilt from the parsed document is the text the writer hashed, with or without error and completion time |
| StateFileExact.RoundTripExact | windows/update_agent/json_reader.cpp:139-188 | for every state and hash: it is read back unchanged but for its checksum if and only if its integers fit 32 bits and its strings and digest are escape-closed; then its checksum verifies, and it validates if and only if it is complete and the digest is not empty |
| StateFileProperties.TrailingBackslashInvalid | windows/update_agent/json_reader.cpp:158-188 | an installer path ending in a lone backslash makes every document printed from the state invalid |
| StateFileProperties.CutInChecksum | windows/update_agent/json_reader.cpp:186-188 | a cut inside the checksum entry leaves the complete map if and only if at most the last quote and brace are missing, and an invalid document otherwise |
| StateFileProperties.TornWrite | windows/update_agent/json_reader.cpp:190-198 | a prefix of a printed document validates if and only if the whole does and at most its last two characters are missing, and it then parses to the same map |
| StateFileProperties.PayloadDecodes | windows/update_agent/checksum.cpp:66-94 | for a map whose covered values are clean, parsing the canonical payload gives back exactly its covered keys |
| StateFileExact.SameChecksumSameDocument | windows/update_agent/checksum.cpp:60-98 | with an injective hash, any two texts whose maps are accepted with one checksum agree on every covered key |
| StateFileExact.SameChecksumSameFields | windows/update_agent/checksum.cpp:60-98 | so do any two maps whose covered values contain no comma followed by a quote |
| StateFileExact.SeparatorCollides | windows/update_agent/checksum.cpp:73-94 | two maps, not read from a text, that the payload does not tell apart |
| StateFileProperties.ChecksumIgnoresMsiPath | windows/update_agent/json_reader.cpp:99-106 | any `msi_path` may be put into a valid map; it stays valid, and reads the same if and only if the installer path is there or the value was the same |
| StateFileProperties.UncoveredInstaller | windows/update_agent/json_reader.cpp:99-106 | for any two installer paths, two valid documents with one checksum that differ in just those |
| StateFileProperties.ReadingMayThrow | windows/update_agent/json_reader.cpp:139-156 | a validated map makes reading throw if and only if the process id or the attempt is not a 32-bit number |
| StateFileProperties.ThrowingDocument | windows/update_agent/json_reader.cpp:139-153 | such a document exists for every hash that is never empty |
| Store.StateStore.WriteUpdateState | windows/update_agent/json_reader.cpp:158-209 | it succeeds exactly if the temp file opens, the move works and its place is free; what both files hold then and in each failure |
| Store.CrashKeepsADocument | windows/update_agent/json_reader.cpp:190-208 | stopping after any step of a replacement whose temp write is whole and whose move works keeps the old document in place or the new one in one of the two files |
| Store.BothFilesLost | windows/update_agent/json_reader.cpp:200-206 | an existing file and its replacement are both lost if and only if the old file was deleted and the move failed |
| Store.ReplacedFileIsWholeOrInvalid | windows/update_agent/json_reader.cpp:190-208 | however much of the temp file was flushed, a completed replacement installs a document that is invalid or reads as the whole one |
| Agent.UpdateAgent.SaveState | windows/update_agent/main.cpp:40-56 | the saved state, the document written and the files left are the ones for this name, error and clock reading, and the run's documents stay sound |
| Agent.SavedFields | windows/update_agent/main.cpp:40-56 | what a save changes: owner and state, an error only if there is a new one, the completion time only on failed and installed |
| Agent.UpdateAgent.DoBoot | windows/update_agent/main.cpp:60-94 | boot succeeds exactly when no other agent holds the mutex, which is then held |
| Agent.UpdateAgent.Release | windows/update_agent/singleton.h:27-34 | the mutex is free afterwards and was released once if it was held, not at all otherwise |
| Agent.UpdateAgent.DoReading | windows/update_agent/main.cpp:98-151 | reading throws, fails or loads the state exactly as the file's validity decides, and then succeeds only for an installer that is there, of at least 1,048,576 bytes and signed |
| Agent.UpdateAgent.DoWaitingAppExit | windows/update_agent/main.cpp:155-192 | it succeeds exactly when the application is gone or goes in time or when terminated, after waits of 0, 60 or 65 seconds |
| Agent.UpdateAgent.Attempt | windows/update_agent/main.cpp:210-221 | an attempt saves "installing" with its number under mutex and heartbeat, then starts the installer once |
| Agent.SetupAnswers | windows/update_agent/installer.cpp:33-56 | the exit code and the wait of each way an installer start can end |
| Agent.UpdateAgent.DoInstalling | windows/update_agent/main.cpp:196-260 | one installing save per start, at most three starts, each but the last with a code other than 0, 1, 2 and 5; success exactly on code 0; exact waits with ten seconds between starts; heartbeat closed at every exit |
| Agent.UpdateAgent.DoVerifying | windows/update_agent/main.cpp:264-302 | the polling ends at the first sighting or after twenty polls of half a second; then it succeeds exactly if the executable is there, of the target version and signed |
| Agent.UpdateAgent.DoRestarting | windows/update_agent/main.cpp:306-325 | one "restarting" save under the mutex, then the launch decides |
| Agent.UpdateAgent.Fail | windows/update_agent/main.cpp:457-464 | a failing exit saves "failed" with its error and a completion time under the mutex, then releases it once |
| Agent.UpdateAgent.Finish | windows/update_agent/main.cpp:478-524 | the phases after installation add exactly the saves that belong to their exit code and release the mutex once |
| Agent.UpdateAgent.Run | windows/update_agent/main.cpp:397-525 | over every environment, in its own fields: when the installer is started at all, when again, the exact condition of each exit code, the states saved for each, mutex released exactly once, heartbeat open in exactly the installing saves, at most 1,910,100 ms of waits, the error text, every saved document readable with the start's fields unchanged, and the files on disk those the saves leave |
| Agent.SuccessIsInstalled | windows/update_agent/version_checker.cpp:44-84 | a run for a four-part target exits with 0 only if the installed version has the target's first three numbers |
| Agent.SavedDocument | windows/update_agent/main.cpp:40-56 | a save from a clean, complete state prints a document that validates and reads back as that state |
| Agent.SoundAfterSave | windows/update_agent/main.cpp:40-56 | each save keeps all earlier documents sound and never changes the update's fields or clears a completion time |
| Agent.StampPlain | windows/update_agent/main.cpp:47-53 | a printed completion time is never empty and is escape-closed |
| Agent.StampFormat | windows/update_agent/main.cpp:50-52 | a time stamp character by character |
| Agent.PrintedStart | windows/update_agent/main.cpp:98-117 | a run started from a printed complete state loads it and starts well |
| Agent.SavedStart | windows/update_agent/main.cpp:98-117 | a run started from any document an earlier run saved starts well, with the same update |
| Agent.FlushedResumable | windows/update_agent/json_reader.cpp:190-198 | any part of a saved document is rejected, or starts the same update |
| Agent.StepResumable | windows/update_agent/json_reader.cpp:190-208 | every step of every save keeps the state file absent, invalid or good for the same update |
| Agent.SavesResumable | windows/update_agent/main.cpp:196-341 | so does any number of saves, under all answers of the file system |
| Agent.StopsResumable | windows/update_agent/main.cpp:196-341 | wherever a run stops, inside a save too, the state file is gone, invalid, or starts the same update again with no completion time cleared |
| Agent.LastSaveOnDisk | windows/update_agent/json_reader.cpp:190-208 | when the file system obeys the last save, whatever became of earlier ones, the state file holds that document and no temp file is left |
| Singleton.StepKeepsInv | windows/update_agent/singleton.h:12-34 | every step keeps: open handles are those of the phases that have one, and at most one process owns the mutex |
| Singleton.MutualExclusion | windows/update_agent/main.cpp:430-524 | in every interleaving of any number of processes at most one is past Boot |
| Singleton.AcquiredIffAlone | windows/update_agent/singleton.h:12-24 | a process gets past Boot if and only if no process is losing, holding or between unlocking and closing |
| Singleton.LingeringLoser | windows/update_agent/singleton.h:16-20 | a loser that has not closed its handle yet turns another process away though none owns the mutex |
| Singleton.MarkerExact | windows/update_agent/main.cpp:388-391 | in every run the marker is there if and only if a write was the last thing that happened to it, and it names that process |
| Singleton.MissingExactly | windows/update_agent/main.cpp:420-432 | while an agent holds the mutex the marker is missing if and only if the last mark was the exit of another process |
| Singleton.StaleExactly | windows/update_agent/main.cpp:385-391 | the process a marker names is gone if and only if it was killed after writing it |
| Singleton.KilledMarkerStays | windows/update_agent/main.cpp:385-391 | a run after which a marker is left and no process |
| Singleton.LoserDeletesMarker | windows/update_agent/main.cpp:420-432 | a losing second agent can delete the marker while the first still runs |
| VersionCheck.DotCount | windows/update_agent/version_checker.cpp:61-65 | the loop counts the dots |
| VersionCheck.ExtractMajorMinorPatch | windows/update_agent/version_checker.cpp:67-77 | the scan returns the text before the third dot, or all of a text with fewer |
| VersionCheck.VerifyInstalledVersion | windows/update_agent/version_checker.cpp:44-84 | for every expected string: accepted exactly on equality with the printed version after one leading 'v', or on at least three dots and the same text before the third |
| VersionCheck.AcceptsExactly | windows/update_agent/version_checker.cpp:50-83 | for every expected string: accepted if and only if, after at most one 'v', it begins with the installed major, minor and build numbers and a dot |
| VersionCheck.FullTextDots | windows/update_agent/version_checker.cpp:31-41 | a printed version has exactly three dots and major.minor.build before the third |
| VersionCheck.VersionExample | windows/update_agent/version_checker.cpp:36-41 | the order of the numbers in a printed version |
| VersionCheck.ShortTextInjective | windows/update_agent/version_checker.cpp:31-41 | the printed first three numbers determine the numbers |
| VersionCheck.AcceptsFourParts | windows/update_agent/version_checker.cpp:50-83 | a four-part version, with or without 'v', is accepted if and only if the first three numbers are equal |
| VersionCheck.ShortVersionRejected | windows/update_agent/version_checker.cpp:79-83 | an expected string with fewer than three dots is never accepted |
| BoardChannel.BoardConnectionManager.Register | backend/python/main.py:325-329 | afterwards the new socket is the board's, its queue is empty and was handed over whole; no other board sees a change |
| BoardChannel.BoardConnectionManager.Disconnect | backend/python/main.py:335-336 | afterwards the board has no socket, whichever one was registered; its queue and every other board stay |
| BoardChannel.BoardConnectionManager.SendRaised | backend/python/main.py:345-347 | afterwards the board has no socket and the command stands last in its queue; no other board sees a change |
| BoardChannel.BoardConnectionManager.QueueCommand | backend/python/main.py:349-352 | the command stands last in its board's queue, the board's socket and every other board stay |
| BoardChannel.EventLoop.Turn | backend/python/main.py:319-352 | the manager's methods, called between awaits as the coroutines call them, make exactly the system's step |
| BoardChannel.EventLoop.Serve | backend/python/main.py:319-352 | serving any run of events on one manager object leaves the channel, coroutines, sockets and deliveries the theorems are about |
| BoardChannel.StepConserves | backend/python/main.py:325-352 | every step between two awaits keeps: issued = delivered + queued + in flight + lost, for every board and command |
| BoardChannel.CommandsConserved | backend/python/main.py:319-352 | that conservation law after every interleaving |
| BoardChannel.LogsAreExact | backend/python/main.py:1510-1520 | the issued and lost counts are those of the run's own events: calls of the admin endpoints, and sends that raised during a flush |
| BoardChannel.CommandsAccountedFor | backend/python/main.py:325-352 | copies delivered, queued or in flight are those issued but for the ones whose send raised during a reconnect flush, so none is delivered twice |
| BoardChannel.StepFlushes | backend/python/main.py:328-333 | a step of any coroutine is an answer that moves the head of this flush to what it delivered or lost, or leaves all of it alone |
| BoardChannel.FlushInOrder | backend/python/main.py:328-333 | in every interleaving, whether sends return or raise: after n answers a flush has exactly the commands from the n-th on left, has delivered in order those whose own send returned, and lost the others |
| BoardChannel.ReconnectDelivers | backend/python/main.py:325-333 | in every interleaving a reconnect, once all its sends are answered, has left nothing and delivered on the new socket, oldest first, exactly the commands whose own send returned, all if none raised |
| BoardChannel.DeliveriesRouted | backend/python/main.py:325-347 | in every run a board's registered socket is its own and open, each handler has its own socket, and commands are only delivered on a socket of their board |
| BoardChannel.StrandedExactly | backend/python/main.py:335-347 | in every run and step a registered socket is unregistered without a newer one if and only if some socket of the board closes or fails a command, and is then still open if and only if that was not its own close |
| BoardChannel.RegisteredIsCurrent | backend/python/main.py:325-347 | in every run the registered socket is the one accepted last unless some socket of the board closed or failed a command since, and it is open |
| BoardChannel.StaleCloseStrands | backend/python/main.py:740-741 | the close of an older socket cuts off the newer one, still open, and the next command is queued |
| BoardChannel.StaleSendStrands | backend/python/main.py:345-347 | so does a command that fails on an older socket: it and the next one are queued though the newer socket is open |
| RateLimiter.RecentIsSuffix | backend/python/middleware/rate_limit_middleware.py:22-26 | on a sorted history trimming drops exactly a prefix of old entries |
| RateLimiter.RecentTwice | backend/python/middleware/rate_limit_middleware.py:22-26 | trimming a trimmed bucket is trimming the whole history |
| RateLimiter.RoomForOne | backend/python/middleware/rate_limit_middleware.py:28-39 | one more admission after a passed check keeps the spacing, although it is recorded at a later clock reading |
| RateLimiter.WindowBound | backend/python/middleware/rate_limit_middleware.py:28-34 | spacing bounds every window (t - W, t] at every instant t by the limit |
| RateLimiter.TrimKeeps | backend/python/middleware/rate_limit_middleware.py:22-26 | trimming keeps every bucket in agreement with its full history for all later windows |
| RateLimiter.RecordKeeps | backend/python/middleware/rate_limit_middleware.py:36-39 | so does recording |
| RateLimiter.KeySeparates | backend/python/middleware/rate_limit_middleware.py:17-20 | for addresses without ':' two requests share a bucket if and only if address and device agree |
| RateLimiter.KeyCollision | backend/python/middleware/rate_limit_middleware.py:17-20 | for any addresses, when exactly two requests share a bucket |
| RateLimiter.KeyCollides | backend/python/middleware/rate_limit_middleware.py:17-20 | two requests from different IPv6 addresses that share a bucket |
| RateLimiter.UnknownClient | backend/python/middleware/rate_limit_middleware.py:18-20 | the bucket of a client without an address |
| RateLimiter.SlidingWindowRateLimiter.Trim | backend/python/middleware/rate_limit_middleware.py:22-26 | the key's bucket is what the untrimmed history holds newer than now - W, kept only if not empty; every bucket still agrees with its history |
| RateLimiter.SlidingWindowRateLimiter.Check | backend/python/middleware/rate_limit_middleware.py:28-34 | the answer is that of the untrimmed history: admitted exactly when it holds fewer than the limit newer than now - W |
| RateLimiter.SlidingWindowRateLimiter.Record | backend/python/middleware/rate_limit_middleware.py:36-39 | one admission is added to this key's history, every bucket still agrees with its own |
| RateLimiter.SlidingWindowRateLimiter.Admit | backend/python/middleware/rate_limit_middleware.py:94-105 | check then record keeps the bound on every window of every key |
| RateLimiter.SlidingWindowRateLimiter.BoundHolds | backend/python/middleware/rate_limit_middleware.py:28-39 | at every instant at most the limit of admissions lie in the window that ends there |
| RateLimiter.RateLimitMiddleware.Dispatch | backend/python/middleware/rate_limit_middleware.py:77-109 | admin paths pass; a registration path is forwarded exactly under 5 admissions in 60 seconds, a ticket path under 10, /health under 120, any other under the general limit; only the limiter of the path changes; refusal, failure for an unknown client, and both headers |
| RateLimiter.RateLimitMiddleware.ShownLimit | backend/python/middleware/rate_limit_middleware.py:77-85 | the limit shown is the limiter's own if and only if the tier is not the general one or that was configured with 60 |
| Attendance.AttendeeTable.Upsert | backend/python/main.py:591-608 | the one row of session and email gets status and time, its name kept, or one nameless row is added; every other row stays; one student's status is overridden without a duplicate |
| Attendance.AttendeeTable.UpsertAll | backend/python/main.py:590-608 | the loop upserts every email in order |
| Attendance.AttendeeTable.Submit | backend/python/main.py:1091-1131 | the statuses become the old map overridden by present, then absent; the submitted emails' rows carry the time of the submission; no duplicate appears and all other rows keep everything |
| Attendance.StatusesAt | backend/python/main.py:591-597 | without duplicates the row the query finds is the student's status |
| Attendance.UpsertOverrides | backend/python/main.py:598-608 | one upsert overrides one student's status and adds no duplicate |
| Attendance.SubmitOverrides | backend/python/main.py:588-630 | the whole submission is the old map overridden by present, then absent, without duplicates, whatever repeats or overlaps |
| Attendance.SubmitExtends | backend/python/main.py:588-630 | rows keep place, identity and name; other sessions' rows keep everything; new rows are this session's |
| Attendance.SubmitStamps | backend/python/main.py:1091-1131 | after a submission exactly the submitted emails' rows of the session carry its time, and new rows have no name |
| Attendance.SubmitTwice | backend/python/main.py:1091-1131 | submitting the same lists again changes nothing but recording times |
| History.IsoOrder | backend/python/main.py:1322 | ISO date texts compare as strings exactly as their dates do |
| History.IsoInjective | backend/python/main.py:1278 | different dates have different ISO texts |
| History.DateTexts | backend/python/main.py:1278 | the two texts of a date and the twelve month names |
| History.LabelOrder | backend/python/main.py:1312-1316 | the past days' sort key compares month names, then days, then years |
| History.PastChronological | backend/python/main.py:1311-1316 | the past days are listed newest first if and only if every earlier day among them is also earlier by month name, day and year |
| History.MonthChronological | backend/python/main.py:1311-1316 | past days of one month come out newest first |
| History.PastOrderWrong | backend/python/main.py:1311-1316 | a sorted list of two past days that is not newest first |
| History.CountRow | backend/python/main.py:1283-1288 | a turn of the loop keeps the calendar the exact per-date tally |
| History.AddPast | backend/python/main.py:1294-1309 | a turn of the loop keeps the past groups the rows of each other date, in order |
| History.Group | backend/python/main.py:1270-1309 | today's list, past groups and calendar are the rows by date, with exact counts; a date is completed exactly if one of its rows is COMPLETED or ENDED |
| History.GroupsPartition | backend/python/main.py:1291-1309 | every row is in exactly one group, as often as it was fetched |
| History.SizesSum | backend/python/main.py:1274-1309 | the group sizes over any listing of the dates add up to the number of rows |
| History.CalendarTotal | backend/python/main.py:1283-1288 | the calendar's counts add up to the number of rows |
| History.CalendarChronological | backend/python/main.py:1321-1322 | the sorted calendar is in strictly increasing date order |
| Registration.AuthService.Initiate | backend/python/services/auth_service.py:77-175 | the response for every database, and that only a committed initiate changes it, storing a fresh OTP for ten minutes |
| Registration.AuthService.Verify | backend/python/services/auth_service.py:178-221 | a token is issued exactly for an unlocked, unexpired, matching OTP, which is deleted; every other path rolls back |
| Registration.AuthService.Complete | backend/python/services/auth_service.py:224-278 | exactly a genuine, unexpired token for this board and a pending user activate, and only that user changes |
| Registration.AuthService.Deregister | backend/python/main.py:1461-1489 | all rows of the board go back to pending, and the request raises exactly when there is none |
| Registration.RaisedKeeps | backend/python/core/database.py:29-38 | whichever request raises, the database is as it was |
| Registration.Endpoints.Handle | backend/python/services/auth_service.py:77-278 | every request served on one service object gives the answer and the step the run theorems are about |
| Registration.RunKeeps | backend/python/services/auth_service.py:77-278 | in every run each stored OTP and each token in circulation is accounted for by an earlier initiate and verify, within their lifetimes |
| Registration.NeverLocked | backend/python/services/auth_service.py:192-210 | in every run no stored OTP has counted an attempt or is locked |
| Registration.TriesUnlimited | backend/python/services/auth_service.py:188-221 | so until it expires an OTP is accepted exactly on the right code, after any number of wrong ones |
| Registration.ActivationChain | backend/python/services/auth_service.py:224-258 | every activation follows a verify for that board less than 15 minutes old, against an OTP stored at most 10 minutes before that verify |
| Registration.OnlyCompleteActivates | backend/python/services/auth_service.py:254-260 | a board's user becomes active in no other way than a complete request for that board |
| Registration.ActiveOnlyAfterChain | backend/python/services/auth_service.py:188-258 | so a board that turns active in any run does so at the end of such a chain |
| Registration.FreshBoardActivates | backend/python/services/auth_service.py:77-278 | and the chain does activate a new board, at the latest permitted times included |
| Registration.CompleteExactly | backend/python/services/auth_service.py:236-255 | a complete request succeeds exactly for a genuine, unexpired token of this board whose user is PENDING |
| Registration.CompletedTurns | backend/python/services/auth_service.py:247-260 | it turns that user from PENDING to ACTIVE and changes nothing else |
| Registration.StaysUntilDeregistered | backend/python/services/auth_service.py:254-255 | in every run an ACTIVE or SUSPENDED board stays so until it is deregistered |
| Registration.CompletedTwice | backend/python/services/auth_service.py:254-255 | between two completions of one board it was deregistered |
| Registration.VerifyExactly | backend/python/services/auth_service.py:188-213 | a one-time password is accepted exactly while stored, unlocked and unexpired, on its own hash |
| Registration.IssuedToken | backend/python/services/auth_service.py:52-60 | the token is for this board, ends at the last full second within 15 minutes, and the password is gone |
| Registration.IssuedTwice | backend/python/services/auth_service.py:215-218 | a password is used once: between two tokens for a board there was an initiate for it |
| Registration.InitiateKnown | backend/python/services/auth_service.py:94-112 | initiating for an email with an active, suspended or pending user |
| Registration.InitiateNew | backend/python/services/auth_service.py:113-125 | initiating for a new email: a board that is taken is refused, else one pending user is added |
| Registration.InitiateStores | backend/python/services/auth_service.py:145-163 | a successful initiate stores the new password's hash for ten minutes, any other changes nothing |
| QrToken.DecodeEncode | backend/python/services/token_validator.py:47 | base64 decoding inverts encoding on all byte strings |
| QrToken.EncodeAlphabet | backend/python/services/token_validator.py:30-35 | encoded text stays in the base64 alphabet, which has no ':' |
| QrToken.EncodeVectors | backend/python/services/token_validator.py:47 | the test vectors of section 10 of RFC 4648 |
| QrToken.EncodeLastLetters | backend/python/services/token_validator.py:47 | the last two letters of the alphabet |
| QrToken.SkipsForeign | backend/python/services/token_validator.py:47 | the decoder skips a character outside the alphabet wherever it stands |
| QrToken.PaddingEnds | backend/python/services/token_validator.py:47 | padding ends the text, whatever follows it |
| QrToken.CutShort | backend/python/services/token_validator.py:47-49 | a text that stops inside a group is not decoded |
| QrToken.ParseDecimal | backend/python/services/token_validator.py:56 | `int()` reads back every printed integer |
| QrToken.ParseSpaced | backend/python/services/token_validator.py:56 | `int()` ignores white space around a number and allows a plus sign |
| QrToken.ParseExamples | backend/python/services/token_validator.py:55-58 | single underscores between digits are allowed, and what is no number |
| QrToken.SplitThree | backend/python/services/token_validator.py:30-32 | three parts without ':' are split again as those three |
| QrToken.ThreeParts | backend/python/services/token_validator.py:30-32 | a token splits into three parts exactly as joined from parts that end clear of double colons |
| QrToken.FormattedToken | backend/python/services/token_validator.py:27-49 | a token in the documented format passes prefix, split, signature and decoding, and is judged by its payload alone |
| QrToken.TokenRoundTrip | backend/python/services/token_validator.py:27-64 | for an id without a vertical bar, such a token is accepted if and only if its time stamp is within the allowed age |
| QrToken.JudgedField | backend/python/services/token_validator.py:51-56 | the field judged is the time stamp, or, for any id with a vertical bar, the id's second part |
| QrToken.BarInId | backend/python/services/token_validator.py:51-62 | for every id with a vertical bar the id's second part decides, whatever the time stamp |
| QrToken.TrustworthyIds | backend/python/services/token_validator.py:27-64 | tokens of an id are accepted exactly while fresh, for all time stamps, if and only if the id has no vertical bar |
| QrToken.AcceptedExactly | backend/python/services/token_validator.py:27-64 | every token: accepted if and only if it is the prefix, base64 text and the signature of just that text, whose second decoded field reads as a time stamp within the allowed age |
| QrToken.ForgedRejected | backend/python/services/token_validator.py:37-43 | a formatted token under any other signature is rejected, whatever it says |
| QrToken.RaisesExactly | backend/python/services/token_validator.py:42 | validation raises exactly on a signature that is not ASCII |
| JsonText.EscapeInjective | backend/python/services/hydration_service.py:281 | an escaped string followed by its quote determines the string and the rest |
| JsonText.ShortEscapes | backend/python/services/hydration_service.py:281 | quotes, backslashes and the five control characters with a short form |
| JsonText.PlainEscape | backend/python/services/hydration_service.py:281 | printable ASCII stands for itself |
| JsonText.UnicodeExamples | backend/python/services/hydration_service.py:281 | other characters are four hexadecimal digits |
| JsonText.SurrogateExample | backend/python/services/hydration_service.py:281 | or a surrogate pair |
| JsonText.PrintInjective | backend/python/services/hydration_service.py:281 | the compact text determines the tree, in front of any text that may follow |
| JsonText.PrintForms | backend/python/services/hydration_service.py:281 | commas and colons without spaces, the constants, numbers and strings |
| StringOrder.KeyTotal | backend/python/services/hydration_service.py:281 | the key order is total and strict |
| StringOrder.KeyTransitive | backend/python/services/hydration_service.py:281 | and transitive |
| StringOrder.KeyLessExactly | backend/python/services/hydration_service.py:281 | keys are ordered by their first difference, or by length where there is none |
| StringOrder.PrefixLess | backend/python/services/hydration_service.py:281 | a key comes before every longer key it begins |
| StringOrder.PrefixFirst | backend/python/main.py:1322 | equally long prefixes are compared first |
| Manifest.NormalisedKeeps | backend/python/services/hydration_service.py:281 | sorting keys at every depth keeps what the tree means |
| Manifest.SameMeaning | backend/python/services/hydration_service.py:281 | a tree with sorted keys is determined by what it means |
| Manifest.CleanKeepsDistinct | backend/python/services/hydration_service.py:268-277 | removing keys makes no key appear twice |
| Manifest.ExcludedKeys | backend/python/services/hydration_service.py:266 | the three excluded keys |
| Manifest.CanonicalForm | backend/python/services/hydration_service.py:265-283 | two payloads have the same hashed text if and only if their cleaned trees are equal as unordered maps |
| Manifest.OrderIrrelevant | backend/python/services/hydration_service.py:281 | dictionaries with the same entries in any order mean the same |
| Manifest.ExcludedIgnored | backend/python/services/hydration_service.py:266-277 | excluded keys, in whatever dictionary at whatever depth, lists included, never show in the hashed text |
| Manifest.CleanExact | backend/python/services/hydration_service.py:268-277 | cleaning leaves no excluded key at any depth, takes nothing else away, and changes exactly the trees that have one |
| Manifest.CleanedTextSame | backend/python/services/hydration_service.py:265-283 | cleaning twice is cleaning once, and a payload cleaned beforehand has the same hashed text |
| Manifest.PartReplaced | backend/python/services/hydration_service.py:268-277 | a part of a payload, through any lists and dictionaries, may be replaced by one with the same cleaned meaning |
| Manifest.PartUnseen | backend/python/services/hydration_service.py:265-283 | and the hashed text stays the same |
| Manifest.BuildRosters | backend/python/services/hydration_service.py:217-260 | the loop fills the rosters of one visiting order, empty ones left out |
| Manifest.RostersAre | backend/python/services/hydration_service.py:219-258 | under each key stand the students of the pair visited last among those with that key, nothing else is stored |
| Manifest.RosterStored | backend/python/services/hydration_service.py:219-277 | the same after cleaning, where excluded keys are gone |
| Manifest.RosterOrderExact | backend/python/services/hydration_service.py:212-260 | the iteration order of the set of pairs does not show in the cleaned rosters if and only if pairs with students that share a kept key have rosters of one cleaned meaning |
| Manifest.RostersSeen | backend/python/services/hydration_service.py:212-283 | two payloads that differ in their rosters have one hashed text if and only if the rosters mean the same |
| Manifest.ManifestOrderExact | backend/python/services/hydration_service.py:212-283 | the hashed text does not depend on the iteration order under exactly that condition |
| Manifest.RosterKeysCollide | backend/python/services/hydration_service.py:241-243 | two pairs share a key if and only if section and course code agree, or part of the longer section stands at the start of the other code |
| Manifest.LastRosterWins | backend/python/services/hydration_service.py:257-258 | of any two pairs that share a kept key the one visited last is stored |
| Schedule.BuildSchedule | backend/python/services/hydration_service.py:138-163 | each day's bucket is that day's slots in order, the flat list is all of them, and exactly an unknown day raises |
| Schedule.BucketsAgree | backend/python/services/hydration_service.py:142-163 | the buckets in weekday order concatenate to the flat list if and only if the slots are sorted by day |

## Left out

- StateFileExact.SameChecksumSameDocument: the hash is assumed injective outright; collisions of a real digest are not modelled.
- Agent.UpdateAgent.Run: fixed-size log buffers (a target version or path long enough to overflow one ends the process) and an exception while formatting are not modelled; a thrown number error is.
- Singleton.MutualExclusion: interleaved processes are steps on one value, not objects; a handle that cannot be created at all is not modelled.
- Store.CrashKeepsADocument: writes by other programs between two steps are not modelled.
- Registration.ActivationChain: each request reads the clock once here; the service reads it again between its checks, and the instants in between are not told apart.
- RateLimiter.SlidingWindowRateLimiter.Admit: the clock is taken not to run backwards.
- BoardChannel.CommandsConserved: a handler cancelled in the middle of its flush, as when the server stops, is not modelled.
- Attendance.SubmitOverrides: one submission at a time; two that interleave at the database are not modelled.
- QrToken.TokenRoundTrip: `int()` on digits outside ASCII or on more than 4300 digits, and text that cannot be encoded, are not modelled.
- The OTP attempt counter and lockout as a bound: the raised error rolls the count back, so the service text promises none.
- Uniqueness of Firebase ids and other refusals of the database, which appear only as a request that does not commit.
- Win32 calls, Authenticode, event log, install journal, logger, dialogs and the bootstrapper: only their answers appear.
- SHA-256, HMAC, JWT and UTF-8 internals, which are parameters, and the character encoding of the state file's streams.
- JSON numbers that are not integers, and dictionary keys that are not strings.
- Labels of past days, the order of today's list, and the fields of a session dictionary in the history: they would only add easy members.
- OTP session ignition, the stale-board monitor, alerts, Redis, Firestore, telemetry, fleet counters and release manifests.
