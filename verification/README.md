# Local TLS startup services and route ownership, modelled in Dafny

This project models the parts of the local TLS plugin that have to survive failures, crashes and
interleavings, and proves what they keep. Input and output, clocks, child processes and other
programs are oracles: every theorem holds for all their answers unless it says otherwise, and a crash
is a stop between any two steps.

Four groups of modules:

1. **The compensating installer.** `ElevatedSequence` interprets a command list with a rollback stack,
   once for the in-process loop and once for the script that macOS runs with elevated rights.
   `LaunchdWorld` says what each command does to services and files, `MacosPrograms`, `MacosStart` and
   `MacosInstall` generate the programs and prove what every failure point leaves behind, for any number
   of legacy services; `MacosCompletion` and `MacosOutcomes` say what they leave when they succeed, which
   service comes back and what is tolerated. `LegacyRollback` and `LegacyCompletion` do the same for the
   Linux and Windows transactions, which roll back in code. `InstallationRecords` is the three-file record
   protocol, `RecordOutcomes` what each finished call leaves.
2. **Route ownership.** `RouteRegistry` holds leases and listeners, `ControlServer` runs connections over
   one shared slot with asynchronous validation, `ControlClient` adds one client with its first-in,
   first-out channel and its delayed callers, `ControlReplies` states the answers by the history of claims,
   and `HeartbeatGap` is a run that a heartbeat cannot mend.
   `PluginRecovery` is the plugin's setup and reconnect loop, `PluginOutcomes` how its runs end, and
   `PluginSetup` its closures. `Framing` and `ControlMessages` are the protocol's lines and messages,
   `MessageFaults` the patterns and the fault that each refusal names.
3. **Coordination between processes.** `StartupLock` is the lock loop of `ensureRunning` for any number of
   processes, `CaMigration` the marker-guarded move of a certificate authority, `Lifecycle` the choice
   between adopting a service and converging on the canonical one.
4. **Order and encodings.** `ServiceVersion` (Semantic Versioning 2.0.0, items 9 to 11), `XmlText`, `XmlEntities`,
   `WindowsArguments`, `SystemdUnit` and `UnitContents`. `Text`, `Sequences`, `Sorting` and `Wrappers` are shared helpers.

Code that updates state is modelled as classes and methods proved equal to a specification function;
the theorems are lemmas about those functions and about whole runs of them. Concurrent protocols are
state machines whose events are the atomic steps of the original. `dafny verify dfyconfig.toml` checks
everything.

Where the code falls short of what one might expect, the exact condition is proved, mostly with a run that shows it:

- The two executors agree unless a time limit shows (`ElevatedSequence.ExecutorsAgreeExactly`). The script
  gives every command without a limit of its own 15 s, where the in-process loop waits
  (`ElevatedSequence.OnlyTheScriptIsImpatient`); and a child that is stopped and still exits with status zero
  is undone by the script and reported as a success (`ElevatedSequence.ScriptHidesATimedOutFailure`).
- A macOS update restores a file exactly unless an interrupted update left an older backup behind
  (`MacosInstall.RestoredExactly`, `MacosInstall.OlderBackupWins`), and its uncompensated `enable` can leave
  the canonical service enabled beside the winner (`MacosInstall.ArmedUpdateRestores`).
- A heartbeat about more than a hundred hostnames is refused, with a reply that carries no request id, so
  the client's view is not corrected (`ControlClient.HeartbeatRoundReconciles`,
  `HeartbeatGap.HeartbeatCannotReconcile`).
- In a start on Linux or Windows a stopped canonical service gives way to a legacy one exactly when a
  stopped legacy service that was not yet asked to be disabled can be started
  (`LegacyRollback.StoppedCanonicalGivesWayExactly`). A later quiesce or an earlier disable that fails is
  enough; the Linux installer guards against this.
- The plugin abandons its hostnames exactly when a recovery's reply and the loss of its socket are handled
  in one turn (`PluginOutcomes.RoutesAreAbandonedExactly`), and a shutdown leaves exactly that client open
  whose setup was still connecting (`PluginOutcomes.ShutdownEndsClientsExactly`).
- A migration that finds a foreign canonical file keeps it beside a copied one; unless the two make a pair
  it fails then and ever after (`CaMigration.MixedPairIsJudged`, `CaMigration.RejectedPairStays`).
- Mutual exclusion of starters rests on sound staleness readings, and each unsound one can break it
  (`StartupLock.UnsoundClearBreaksExclusion`, `StartupLock.TardyOwnerIsNotExcluded`).

## Model

| member | source | states |
|---|---|---|
| `ElevatedSequence.Unwind` | src/service-install/shared.ts:841-862 | Recoveries run newest group first, and a required recovery that fails ends them. |
| `ElevatedSequence.UnwindGroup` | src/service-install/shared.ts:843-857 | One group runs in its order up to a required recovery that fails. |
| `ElevatedSequence.IssueInProcess` | src/service-install/shared.ts:820-866 | The in-process loop issues exactly the commands of the specification and stops at the first required failure, with the stack of that moment; what stands on that stack is stated by `CommitForgets` and the `MacosPrograms` rows. |
| `ElevatedSequence.IssueInScript` | src/service-install/shared.ts:30-51 | The script loop does the same under its own notion of failure (spawn error or a status other than zero). |
| `ElevatedSequence.RunElevatedCommands` | src/service-install/shared.ts:795-866 | The promise fulfils exactly when the specification reports success, and the log is its forward and recovery commands. |
| `ElevatedSequence.RunElevatedScript` | src/service-install/shared.ts:30-51 | The exit status is zero exactly when the script's specification reports success. |
| `ElevatedSequence.ExecutorsAgreeExactly` | src/service-install/shared.ts:30-51 | For every command list and all children: both executors issue the same forward and recovery commands with the same effects and report the same result, if and only if no limit shows in the commands issued: without a limit of its own a child ends within the 15 s of the script or ends the same way when stopped, one stopped by its own limit does not exit cleanly, and the one that fails the run does not either. |
| `ElevatedSequence.LimitShowsExactly` | src/service-install/shared.ts:35-37 | A limit shows exactly when the two executors see the child differently. |
| `ElevatedSequence.OnlyTheScriptIsImpatient` | src/service-install/shared.ts:35-46 | A required command without a limit that needs more than 15 s and exits with zero succeeds in process and fails in the script. |
| `ElevatedSequence.ScriptHidesATimedOutFailure` | src/service-install/shared.ts:36-46 | A required child that the script stops and that then exits cleanly: its work is undone and still reported as a success. |
| `ElevatedSequence.CommitForgets` | src/service-install/shared.ts:820-866 | For any commands a, c, b: if all of a and the clearing command c succeeded, every recovery of the run comes from the group of a command after c or of c itself; nothing pushed before is left. |
| `ElevatedSequence.NoRecoveryAfterCommit` | src/service-install/shared.ts:828-858 | A program whose later commands push nothing is never rolled back once a clearing command succeeded. |
| `MacosPrograms.QuiesceOneKeepsOthers` | src/service-install/macos.ts:109-160 | Quiescing one service pushes exactly its own groups; a discard pops the group its own disable pushed and nothing older. |
| `MacosPrograms.QuiesceAll` | src/service-install/macos.ts:109-160 | A finished quiesce program for any list leaves the groups of its installations, in order, on the stack. |
| `MacosPrograms.QuiesceEffect` | src/service-install/macos.ts:109-160 | Every quiesced service ends disabled and no other service changes. |
| `MacosPrograms.QuiesceBoth` | src/service-install.ts:586-594 | Legacy services and then the canonical one: both groups, in that order. |
| `MacosPrograms.GroupsOfMarked` | src/service-install.ts:565-583 | With distinct identifiers only the previous winner keeps groups that bring a service back. |
| `MacosPrograms.BootoutAllIsNeutral` | src/service-install/macos.ts:62-83 | Booting services out enables nothing and pushes no compensation; it commits only where asked. |
| `MacosPrograms.CleanupIsNeutral` | src/service-install/macos.ts:85-107 | Removing a legacy service enables nothing and pushes no compensation. |
| `MacosPrograms.RevivedIsRunning` | src/service-install/macos.ts:124-158 | A finished revival leaves its service enabled and running, and touches no other service or file. |
| `MacosPrograms.SurvivorRevived` | src/service-install/macos.ts:109-160 | The recovery that is left on the stack enables the survivor and no other service. |
| `MacosPrograms.UnstoppedRecoveryEnds` | src/service-install/shared.ts:841-862 | If no required recovery fails, all recoveries ran to the end. |
| `MacosStart.TailRun` | src/service-install.ts:595-635 | Whatever fails between quiescing and the commit, the stack holds the quiesce groups plus at most the compensation of `enable`. |
| `MacosStart.RecoveredWorld` | src/service-install/shared.ts:841-862 | After those recoveries a quiesced service is enabled exactly when it is the survivor. |
| `MacosStart.SingleEnabledAfterFailedStart` | src/service-install.ts:560-638 | For any number of legacy services, either executor, any launchd state and any failures between quiescing and commit with successful recoveries: exactly the survivor is enabled, and the previous winner runs. |
| `MacosInstall.ArmedUpdateRestores` | src/service-install/macos.ts:307-418 | A rolled-back update puts the staged backups back, revives the winner, and leaves a service enabled exactly when it is the survivor or the canonical one whose uncompensated `enable` had succeeded. |
| `MacosInstall.UnarmedWritesNothing` | src/service-install/macos.ts:307-323 | A failure before the restore group is armed has written none of the installed files. |
| `MacosInstall.RestoredExactly` | src/service-install/macos.ts:307-418 | After a rolled-back update a file is as before the call if and only if the restore group was not armed, or no other backup was left over from an interrupted update. |
| `MacosInstall.OlderBackupWins` | src/service-install/shared.ts:691-717 | A run on the failing side: an armed, rolled-back update puts an older backup in the place of the node binary. |
| `MacosInstall.FilesBeforeBootstrap` | src/service-install/macos.ts:318-355 | All three files are restored successfully before any recovery bootstraps a service. |
| `MacosInstall.StagedBackup` | src/service-install/shared.ts:691-717 | Staging keeps a backup that is already there and otherwise copies the installed file. |
| `MacosCompletion.CommittedStartIsNotRolledBack` | src/service-install.ts:595-635 | Whatever fails after a start has committed, with either executor, no recovery command is issued. |
| `MacosCompletion.CommittedUpdateIsNotRolledBack` | src/service-install/macos.ts:310-418 | The same for an update. |
| `MacosCompletion.SuccessfulUpdate` | src/service-install/macos.ts:350-418 | An update that does not fail installs the given node binary and the staged command line interface, definition and record, leaves the canonical service enabled and running and every obsolete one disabled, booted out and without files, and no other service changed. |
| `MacosCompletion.SuccessfulStart` | src/service-install.ts:595-638 | A start that does not fail leaves the canonical service enabled and answering, every legacy one disabled, booted out and without files, and nothing else changed. |
| `MacosOutcomes.WinnerExactly` | src/service-install.ts:571-575 | The service to bring back is the canonical one if it ran, else the first legacy one that did, else none. |
| `MacosOutcomes.FailedStartBringsBack` | src/service-install.ts:560-638 | The failed start once more, by who ran before: that service alone is enabled and runs again; if none ran the canonical one is enabled alone, and without one everything stays disabled. |
| `MacosOutcomes.ProgramsTolerateBootouts` | src/service-install/macos.ts:62-193 | In every start and update a run fails at its last command only and never at a bootout, failed bootouts are the only ones passed over, and the wait for an answer is given 35 s by either executor. |
| `MacosOutcomes.AnsweredIsNotRolledBack` | src/service-install/macos.ts:174-194 | Once the canonical service has answered, whatever fails afterwards, nothing is rolled back. |
| `InstallationRecords.RecordStore.Restore` | src/service-install.ts:242-269 | The failure path writes exactly the specified states. |
| `InstallationRecords.RecordStore.Complete` | src/service-install.ts:270-295 | The success path writes exactly the specified states. |
| `InstallationRecords.RecordStore.Prepare` | src/service-install.ts:154-241 | Everything before the platform step writes exactly the specified states. |
| `InstallationRecords.RecordStore.InstallStartupServiceRecords` | src/service-install.ts:141-297 | Wherever the process stops, the three files are in one of the specified states, and in the last of them when nothing stopped it. |
| `InstallationRecords.SoundIsReadable` | src/service-install/shared.ts:360-437 | In every sound state `readRecord` finds a record. |
| `InstallationRecords.InstallIsRecoverable` | src/service-install.ts:154-295 | Every state an install passes through keeps a complete record to fall back to, and the previous-record file never holds an unfinished one. |
| `InstallationRecords.RecordsSurviveCrashes` | src/service-install.ts:154-295 | From a complete installation, over any number of finished, failed and interrupted installs, a record can be read and the fallback is complete and is the original or one that a call committed. |
| `InstallationRecords.FailureRestoresRecord` | src/service-install.ts:242-268 | A failed install whose previous target is still owned puts the record it fell back to in force again, if and only if it had not in fact committed what it owns, and it was not a version 1 record beside a version 2 file that could not be removed. |
| `InstallationRecords.InstallNeverDowngrades` | src/service-install.ts:66-110 | From any files, with no, a version 1, an unfinished, an incomparable or an installed record, a successful call leaves the higher of what was recorded and its own version. |
| `InstallationRecords.VersionsNeverDecrease` | src/service-install.ts:318-343 | From any files and over any number of successful calls by clients of any valid versions the recorded version never decreases and covers every caller. |
| `RecordOutcomes.EachStepIsOneWrite` | src/service-install.ts:154-295 | From any files: an install starts from them and writes or removes one of the three at a time. |
| `RecordOutcomes.FinishedCallLeaves` | src/service-install.ts:154-295 | From any readable files and for all answers of the world, exactly what a finished call leaves in each of the three files: its own record, what it committed and owns, the previous record put back, its plan, or nothing. |
| `RecordOutcomes.UnreadableFilesStay` | src/service-install.ts:154-159 | A call that cannot read the record or the one to fall back to changes nothing. |
| `RecordOutcomes.RecordInForce` | src/service-install/shared.ts:360-437 | The first file there is decides, and a record of the wrong kind in it is an error. |
| `RecordOutcomes.StatusExactly` | src/service-install.ts:66-110 | Each answer of the update status if and only if its condition holds: version above, below or the same by precedence, protocol, control socket, same command line interface. |
| `ServiceVersion.ParseWritten` | src/service-version.ts:6-23 | Every text written by the grammar parses to its parts. |
| `ServiceVersion.ParsedIsWritten` | src/service-version.ts:6-23 | Nothing else parses. |
| `ServiceVersion.ComparePrerelease` | src/service-version.ts:40-57 | The field loop computes the precedence of prerelease lists. |
| `ServiceVersion.CompareServiceVersions` | src/service-version.ts:59-73 | No result exactly when a text does not parse; otherwise the sign of precedence, whose meaning `CompareMeansItem11` states by item 11 of Semantic Versioning 2.0.0. |
| `ServiceVersion.CodedIdentifierOrder` | src/service-version.ts:25-38 | Comparing numeric identifiers by length and then text is comparing their values, at any length. |
| `ServiceVersion.CompareIsTotalPreorder` | src/service-version.ts:59-73 | On texts that parse the comparison is reflexive, antisymmetric in sign and transitive. |
| `ServiceVersion.TieMeansSameVersion` | src/service-version.ts:6-73 | Two texts tie if and only if they differ in build metadata at most. |
| `ServiceVersion.CompareMeansItem11` | src/service-version.ts:25-73 | For all versions written by the grammar, stated without the comparison: the result is 1 exactly when the first differing core number is larger by value, or cores agree and only the other has a prerelease, or at the first differing field the identifier is larger (numbers by value, numbers below text, text by code unit), or all fields agree and there are more; -1 exactly when that holds the other way round; 0 otherwise. |
| `ServiceVersion.CompareMeansAbove` | src/service-version.ts:59-73 | For all texts, the comparison is 1 exactly when both are versions and the first is above the second in that sense. |
| `ServiceVersion.AtLeastMeans` | src/service-version.ts:59-73 | At least means: both are versions and the other one is not above. |
| `ServiceVersion.ValueAppends` | src/service-version.ts:25-38 | A further digit makes the value ten times as much plus that digit. |
| `ServiceVersion.AlphabetExactly` | src/service-version.ts:6-23 | Digits and identifier characters are those of ASCII, and the hyphen. |
| `RouteRegistry.RouteRegistry.Register` | src/route-registry.ts:38-56 | The hostname moves to the new registration; the previous owner's listeners are called exactly when another token held it. |
| `RouteRegistry.RouteRegistry.RegisterMany` | src/route-registry.ts:58-60 | Registrations take effect one after the other, with all their notices. |
| `RouteRegistry.RouteRegistry.UnregisterMany` | src/route-registry.ts:70-72 | Removes and reports the matching hostnames. |
| `RouteRegistry.RouteRegistry.UnregisterOwner` | src/route-registry.ts:74-86 | Deleting while iterating removes every route of the token under the lease and no other. |
| `RouteRegistry.RouteRegistry.FilterActive` | src/route-registry.ts:88-93 | Keeps exactly the hostnames held by the token under the lease. |
| `RouteRegistry.UnregisterManyRemoves` | src/route-registry.ts:62-72 | Unregistering removes exactly the listed hostnames that the token holds under the lease. |
| `RouteRegistry.RegisterManyClaims` | src/route-registry.ts:38-60 | Registering gives every named hostname to the lease and leaves all others and all listeners alone. |
| `RouteRegistry.ActiveHostnamesAre` | src/route-registry.ts:88-93 | A hostname is active exactly when it was asked for and is held by the token under the lease. |
| `ControlServer.ReachableInv` | src/control-server.ts:146-283 | In every reachable state queues are consistent, cleanup is the last item of its connection, every lease belongs to a connection that is not cleaned and listens under the route's token, and live connections have exactly one listener per token. |
| `ControlServer.StepKeepsInv` | src/control-server.ts:146-283 | Each event keeps those invariants, also while a registration is being validated. |
| `ControlServer.CleanUpRemovesLeases` | src/control-server.ts:271-283 | Cleaning a connection removes exactly its leases. |
| `ControlServer.RegistryRefinesHistory` | src/control-server.ts:146-283 | After every run a hostname maps to a route if and only if that was the latest claim and since then neither its own connection and token released it nor its connection was cleaned up. |
| `ControlServer.CleanedHoldsNothing` | src/control-server.ts:259-283 | No route is leased to a cleaned connection, even if it closed during validation. |
| `ControlServer.OneListenerPerToken` | src/control-server.ts:228-241 | Under a token a connection has one listener if it subscribed and none otherwise. |
| `ControlServer.TakeoverToldOnce` | src/control-server.ts:220-241 | When a validated registration takes a hostname over from another token, every connection subscribed under that token is written to exactly once, nobody else is, and the lease holder is among them; a socket destroyed meanwhile drops what is written to it. |
| `ControlServer.ControlServer.RegisterRoutes` | src/control-server.ts:222-248 | Registers, notifies, subscribes once per new token and replies, in that order. |
| `ControlServer.ControlServer.ForgetRoutes` | src/control-server.ts:277-279 | Removes the connection's routes of all its tokens and no other route. |
| `ControlServer.ControlServer.ForgetListeners` | src/control-server.ts:280-282 | Removes the connection's own listeners and no other listener. |
| `ControlServer.ControlServer.CleanupConnection` | src/control-server.ts:271-283 | Runs once, and leaves what the specification says. |
| `ControlServer.ControlServer.ProcessMessage` | src/control-server.ts:182-257 | Each message type changes the registry and replies as specified; what the replies say of a run is stated by the `ControlReplies` rows. |
| `ControlServer.ControlServer.RunNext` | src/control-server.ts:166-179 | The shared slot runs its item to the end, or keeps it while routes are validated. |
| `ControlServer.ControlServer.FinishValidation` | src/control-server.ts:220-226 | A successful validation registers; a failed one replies with an error and changes nothing. |
| `ControlReplies.StopsExactlyWhenIdle` | src/control-server.ts:198-210 | Over any run a request to stop is granted if and only if no hostname is held by the history of claims and releases; otherwise it is refused with its request id and ROUTES_ACTIVE. |
| `ControlReplies.CountsWhatIsHeld` | src/control-server.ts:188-219 | Negotiation and health report the number of hostnames held by that history. |
| `ControlReplies.HeartbeatConfirms` | src/control-server.ts:243-257 | A heartbeat is answered with exactly those of its hostnames that the lease holds under the token by that history. |
| `ControlReplies.UnregisterReports` | src/control-server.ts:243-257 | An unregistration reports exactly the named hostnames that its lease held, and they are gone. |
| `ControlReplies.RegistrationIsConfirmed` | src/control-server.ts:220-242 | A validated registration is answered last, to its connection, with its hostnames in order. |
| `ControlReplies.RejectionChangesNothing` | src/control-server.ts:165-173 | A registration that does not validate gets one error with its id, and nothing else happens. |
| `ControlReplies.MalformedChangesNothing` | src/control-server.ts:165-173 | A frame that does not parse gets one error without an id, and nothing else happens. |
| `ControlClient.ControlClient.RunOn` | src/control-client.ts:118-175 | A resumed caller adds or removes exactly what its reply says. |
| `ControlClient.LateCallerKeepsLostHostname` | src/control-client.ts:118-132 | A hostname stays claimed when its loss is handled before the registering caller resumed, and not when it is handled after. |
| `ControlClient.EarlyLossIsMild` | src/control-client.ts:218-223 | Deleting a hostname early never costs another one its claim. |
| `ControlClient.StepServes` | src/control-server.ts:182-283 | Whatever any connection does, the frames one client gets account for every loss of its lease and answer its requests in order. |
| `ControlClient.NextKeepsJoined` | src/control-client.ts:118-238 | Each step of server, channel and client keeps: the lease is contained in what the client will claim once everything under way is handled. |
| `ControlClient.ClaimedCoversHeld` | src/control-client.ts:118-238 | Whenever nothing is in flight the client claims every hostname the registry holds for its lease. |
| `ControlClient.HeartbeatRoundReconciles` | src/control-client.ts:154-175 | A heartbeat round without interleaving makes both sets equal if and only if at most a hundred hostnames are claimed or they were equal before. |
| `ControlClient.UnregisterRoundReleases` | src/control-client.ts:134-153 | An unregistration round without interleaving, over any run: exactly what the lease held of the named hostnames leaves the registry and the claimed set; a list the parser refuses changes nothing. |
| `HeartbeatGap.HeartbeatCannotReconcile` | src/control-client.ts:118-175 | A run on the failing side, for any hundred hostnames and one more that is lost before its caller ran on: after a whole round the client still claims it and its lease does not hold it. |
| `HeartbeatGap.RegisterIsServed` | src/control-server.ts:220-256 | On an idle server a valid registration is validated, carried out, announced and answered, and leaves the server idle. |
| `Framing.ChunksDoNotMatter` | src/control-client.ts:202-216 | However a stream is cut into chunks, the reader hands on exactly the lines of the whole that are not blank, and keeps the unfinished one. |
| `Framing.ServerReadsUntilOverflow` | src/control-server.ts:146-165 | The server does the same as long as no chunk takes its buffer over 1 MiB; otherwise it hands on exactly the lines complete before the first such chunk. |
| `Framing.EncodedStreamReadsBack` | src/control-protocol.ts:232-234 | A stream of encoded messages, cut anywhere, yields those messages in order and leaves nothing over. |
| `Framing.FrameReader.HandleData` | src/control-client.ts:202-216 | One chunk: the complete lines go on in order, blank ones are skipped. |
| `Framing.FrameReader.HandleGuardedData` | src/control-server.ts:146-165 | The same behind the buffer limit, which is checked before any frame of the chunk is handed on. |
| `ControlMessages.ParsedIsValid` | src/control-protocol.ts:161-216 | What the parser accepts is a well-formed message: counts, distinct hostnames, ports, patterns, lengths. |
| `ControlMessages.ValidExactlyWhenItRoundTrips` | src/control-protocol.ts:161-234 | A message is well formed if and only if sending it and parsing what arrives gives it back. |
| `ControlMessages.ReparsingChangesNothing` | src/control-protocol.ts:72-87 | Parsing a parsed message again returns it unchanged, although upstream hosts lose their brackets. |
| `ControlMessages.ParsedUpstream` | src/control-protocol.ts:72-87 | An accepted host is accepted as it stands after unwrapping. |
| `MessageFaults.UnitsAdd` | src/control-protocol.ts:47-60 | Lengths count UTF-16 units: they add up, two for a character beyond the basic plane. |
| `MessageFaults.RequestIdExactly` | src/control-protocol.ts:99-104 | A request id is 1 to 128 units of ASCII letters, digits, dot, underscore, colon and hyphen. |
| `MessageFaults.OwnerExactly` | src/control-protocol.ts:62-70 | An owner token is 16 to 256 units of the same alphabet. |
| `MessageFaults.HostnameExactly` | src/control-protocol.ts:47-60 | Labels joined by dots are a hostname if and only if there are at most 253 units and each label has at most 63, of small letters, digits and inner hyphens. |
| `MessageFaults.UpstreamExactly` | src/control-protocol.ts:72-87 | The same for upstream hosts, with addresses, capital letters and longer labels. |
| `MessageFaults.RouteNamesFirstFault` | src/control-protocol.ts:117-150 | A route is accepted if every field is as it should be, and otherwise refused with the code of the first that is not. |
| `MessageFaults.FirstRefusedRouteDecides` | src/control-protocol.ts:195-200 | The first refused route of a list gives the code. |
| `MessageFaults.EnvelopeFaults` | src/control-protocol.ts:161-216 | Request id, type and version, in this order: the exact answer to every value that does not reach the lists. |
| `MessageFaults.OwnedFaults` | src/control-protocol.ts:206-213 | Unregistrations and heartbeats: accepted with exactly their texts, or refused for the owner, the list, a hostname or a repetition, in this order. |
| `MessageFaults.RegisterFaults` | src/control-protocol.ts:195-205 | Registrations: accepted with their routes, or refused for the list, the first refused route or a repeated hostname, in this order. |
| `PluginRecovery.LostIsNeverReclaimed` | src/plugin.ts:497-612 | Over any run no registration names a hostname whose loss the plugin had learned. |
| `PluginRecovery.OneRecoveryAtATime` | src/plugin.ts:551-612 | At most one recovery loop is active and at most one client can deliver anything. |
| `PluginRecovery.StepKeepsInv` | src/plugin.ts:458-686 | Each callback and each continuation keeps the invariants behind these results, also between a reply and its continuation. |
| `PluginOutcomes.RoutesAreAbandonedExactly` | src/plugin.ts:551-612 | Over any run: until the shutdown there is an open client, a running recovery or nothing owned, if and only if no recovery adopted a candidate whose socket was lost between its reply and its continuation; once that happened it is final. |
| `PluginOutcomes.AcceptedThenMalformedAbandons` | src/plugin.ts:582-591 | The input for that: one chunk with the reply to a recovery and a malformed frame. |
| `PluginOutcomes.ShutdownEndsClientsExactly` | src/plugin.ts:458-477 | After a shutdown that came to rest every client of setup and of recoveries is dead, except exactly the client of the setup whose connection opened after the shutdown began and was not lost since. |
| `PluginOutcomes.SetupClientIsLeftOpen` | src/plugin.ts:641-651 | The input for that: a shutdown while the client of the setup connects; it registers afterwards and stays open. |
| `PluginOutcomes.StepAccounts` | src/plugin.ts:439-686 | Each step keeps: an open client is the current one, a candidate or one left behind, a closing one is awaited, and a fresh one is connecting. |
| `PluginOutcomes.RegistrationsNameTheOwned` | src/plugin.ts:561-582 | Over any run, every registration of the setup or of a recovery names exactly the hostnames owned at that moment, all of them, in the order of the domains. |
| `PluginOutcomes.ContinuationsMoveOn` | src/plugin.ts:551-686 | Over any run the event that the setup or a recovery waits for moves it on to another point or ends it; no continuation runs twice. |
| `PluginOutcomes.LossesOfTheTurnCount` | src/plugin.ts:497-540 | Between a reply and its continuation a loss in the same chunk counts, and nothing of another client is heard. |
| `PluginOutcomes.LateLossesCount` | src/plugin.ts:497-549 | A loss from a client whose socket was given up counts exactly while the recovery in charge waits for the infrastructure or its reply has still to be acted on. |
| `PluginSetup.ServerSetup.OwnedRoutes` | src/plugin.ts:561-563 | The filter keeps exactly the owned domains, in order. |
| `PluginSetup.ServerSetup.OnLost` | src/plugin.ts:497-540 | A loss removes exactly the named hostnames. |
| `PluginSetup.ServerSetup.Handle` | src/plugin.ts:458-686 | Whatever callback or continuation runs: at most one recovery is active afterwards, and every registration that was sent names exactly the hostnames still owned, none of them learned to be lost before. |
| `StartupLock.MutualExclusion` | src/service.ts:287-328 | For any interleaving with sound staleness readings at most one live process is between acquire and release. |
| `StartupLock.UnsoundClearBreaksExclusion` | src/service.ts:647-675 | The readings have to be sound: from any sound run, one step that removes the lock of an owner at work always leads on to two processes between acquire and release, whether that owner was recorded and misjudged or not recorded yet. |
| `StartupLock.TardyOwnerIsNotExcluded` | src/service.ts:647-675 | A run from a fresh start: an owner that has not written its record when its lock counts as old loses the exclusion. |
| `StartupLock.MisjudgedOwnerIsNotExcluded` | src/service.ts:647-675 | A run from a fresh start: so does a recorded owner whose process is taken for missing. |
| `StartupLock.StepKeepsOwnership` | src/service.ts:618-675 | Each step keeps: whoever is between acquire and release owns the lock file. |
| `StartupLock.StartedExactlyOnce` | src/service.ts:287-328 | If starts succeed and the started daemon stays up, the daemon is started at most once, and exactly once when anybody is told that it runs. |
| `StartupLock.StepKeepsOneStart` | src/service.ts:485-560 | Each such step keeps: nobody but the one starter is on the way to a start. |
| `StartupLock.NobodyStartsOverOthers` | src/service.ts:522-562 | Over any run and any readings, whoever is on the way to a start has looked under the lock and saw neither an unrelated listener nor an incompatible daemon with routes. |
| `StartupLock.RunningWasFound` | src/service.ts:287-328 | Over any run nobody is told that the daemon runs without having found a healthy one with a matching state, or having verified the one it started. |
| `StartupLock.FailureHasItsCause` | src/service.ts:287-328 | Over any run whoever is told of a failure met the cause that its code names. |
| `StartupLock.NobodyLeavesALock` | src/service.ts:594-645 | Over any run a lock that was not there before has an owner between acquire and release; once everybody is done it is gone. |
| `StartupLock.ProbeDecides` | src/service.ts:485-504 | Each answer of a probe leads to its outcome if and only if it is that answer: missing, unrelated, compatible, incompatible with or without routes. |
| `StartupLock.StateDecides` | src/service.ts:505-520 | A compatible daemon counts as running exactly when the state file names this socket and namespace; without a state file the lock file decides whether to go on. |
| `StartupLock.ReplaceDecides` | src/service.ts:522-546 | Under the lock an unrelated listener or an incompatible daemon with routes is refused, and an incompatible idle one is stopped first. |
| `CaMigration.SelectAuthoritySource` | src/legacy-certificate-migration.ts:165-203 | The loop returns the first preferred candidate, else the first usable one, else nothing or an error. |
| `CaMigration.SelectedIsNewest` | src/legacy-certificate-migration.ts:165-203 | The chosen source is usable, is the marked one if there is a marker, and nothing preferred (or, failing trust, usable) is newer. |
| `CaMigration.NothingSelected` | src/legacy-certificate-migration.ts:197-203 | Exactly when nothing is selected and exactly when the selection fails. |
| `CaMigration.CanonicalAuthority.CopyAuthority` | src/legacy-certificate-migration.ts:254-264 | Copies what is missing, checks, removes the marker; a stop leaves a prefix of these writes. |
| `CaMigration.CanonicalAuthority.MigrateAuthority` | src/legacy-certificate-migration.ts:229-265 | The disk passes through exactly the planned states up to the stop, and the result is the planned one if nothing stopped it. |
| `CaMigration.CrashesAreResumable` | src/legacy-certificate-migration.ts:229-265 | From nothing, after any number of runs each stopped anywhere: present files equal the marked source's, and without a marker both are absent or both of one source. |
| `CaMigration.FinishedRunLeavesOnePair` | src/legacy-certificate-migration.ts:248-265 | A finished run leaves exactly the pair of the source it names, the marked one if there was a marker. |
| `CaMigration.ConsistentRunSucceeds` | src/legacy-certificate-migration.ts:205-265 | A run that starts on a consistent disk and finds a source passes the final check and succeeds. |
| `CaMigration.MixedPairIsJudged` | src/legacy-certificate-migration.ts:205-265 | From an incomplete disk of any origin a finished run keeps what was there and copies the rest; it succeeds without a marker if they make a pair, and otherwise fails with the marker in place. |
| `CaMigration.RejectedPairStays` | src/legacy-certificate-migration.ts:229-265 | Every later run that judges such a pair the same way fails and writes nothing. |
| `Lifecycle.ConvergesExactly` | src/startup-service-lifecycle.ts:177-207 | Services are changed if and only if the second look finds no invalid record, no installation with routes, and only newer installations that agree with their record and with this protocol. |
| `Lifecycle.DecidesExactly` | src/startup-service-lifecycle.ts:151-175 | For all observations, by places and raw fields: two services with routes are refused, a single one is adopted if compatible and refused if not, and with none the first newer installation that disagrees is reported or the canonical service is ensured, with an update exactly when there is something to migrate. |
| `Lifecycle.ChangesExactly` | src/startup-service-lifecycle.ts:177-207 | For all observations: services change if and only if nothing is invalid, nothing has routes and no newer installation disagrees; every other case has its own report. |
| `Lifecycle.SourceIsForemost` | src/startup-service-lifecycle.ts:99-149 | The source is absent exactly when nothing to migrate is an installed version above this package; otherwise it is one of those, in this protocol, with none of higher precedence and among equals none later; all legacy installations are passed on in order. |
| `Lifecycle.NoComplaint` | src/startup-service-lifecycle.ts:99-124 | No error exactly when every newer installation agrees with its record and this protocol. |
| `LegacyRollback.StartIsSafe` | src/service-install.ts:655-769 | Linux and Windows start, any legacy list, any outcomes: at most one start succeeds in the rollback, only services this call stopped are started, a legacy that came back leaves the canonical commanded disabled, nothing is rolled back after the commit, and it gives up only after trying what it owes. |
| `LegacyRollback.InstallIsSafe` | src/service-install/linux.ts:142-233 | The same for the Linux install unless putting files back failed; and a canonical service that was stopped never loses to a legacy one. |
| `LegacyRollback.StoppedCanonicalGivesWayExactly` | src/service-install.ts:699-862 | A failed start on Linux or Windows that had stopped the canonical service, any legacy list, any outcomes: the second loop tries exactly the legacy services that were stopped and not yet asked to be disabled; the canonical service gives way if and only if one of those starts succeeds, and otherwise the last command starts it. |
| `LegacyRollback.DisabledLegacyNeverWins` | src/service-install.ts:699-862 | Once every stopped legacy service was asked to be disabled, a stopped canonical service never gives way. |
| `LegacyRollback.RefusedQuiesceGivesWay` | src/service-install.ts:663-667 | An input on the failing side, on both platforms: the second legacy service refuses to be quiesced. |
| `LegacyRollback.RefusedDisableGivesWay` | src/service-install.ts:668-675 | Another one, on both platforms: the first legacy service refuses to be disabled. |
| `LegacyRollback.AttemptIs` | src/service-install.ts:708-730 | One attempt concerns its service alone, and ends with it started or with it commanded disabled. |
| `LegacyRollback.LastStoppedComesBack` | src/service-install.ts:707-754 | When starts succeed, the service that comes back is the last one stopped, disabled ones first. |
| `LegacyCompletion.CommittedStart` | src/service-install.ts:655-862 | A committed start on Linux or Windows: every legacy service is stopped, then disabled, and never asked for again; a restarted canonical service is stopped before them and started and awaited after them, one that is not restarted is left alone; if all went well the legacy ones are discarded after that and the records last. |
| `LegacyCompletion.CommittedInstall` | src/service-install/linux.ts:78-141 | A committed Linux install: backups before any stop, every legacy service stopped and disabled before the runtime changes, then runtime, definition, reload, enable, readiness and record in this order, and the legacy services discarded after it. |
| `LegacyCompletion.FailureEndsTheRun` | src/service-install/linux.ts:78-141 | A run that does not commit ends with its first failure. |
| `LegacyCompletion.LastWordOfFailedStart` | src/service-install.ts:699-862 | The last command of a failed start about the canonical service: none without a restart, disable if a legacy one came back, start if it had been stopped, and otherwise stop on Linux or enable on Windows; it is halted before anything else. |
| `LegacyCompletion.LastWordOfFailedInstall` | src/service-install/linux.ts:142-233 | The same for a failed install whose restore did not fail; a canonical service whose files changed is disabled first and its files are put back before anything is revived. |
| `LegacyRollback.Machine.QuiesceAll` | src/service-install.ts:659-667 | Stops at the first failure and returns exactly the services it stopped. |
| `LegacyRollback.Machine.DisableAll` | src/service-install.ts:668-675 | Counts every service it asked to disable, the failing one included. |
| `LegacyRollback.Machine.RestartLast` | src/service-install.ts:707-754 | The restore loop tries from the last to the first and stops at the first that comes back. |
| `LegacyRollback.Machine.RollBackStart` | src/service-install.ts:699-769 | The rollback of a start issues exactly the specified commands. |
| `LegacyRollback.Machine.StartStartupService` | src/service-install.ts:655-862 | The whole transaction on Linux and Windows: the log is the specified forward and rollback commands. |
| `LegacyRollback.Machine.RollBackInstall` | src/service-install/linux.ts:142-233 | The rollback of an install issues exactly the specified commands. |
| `LegacyRollback.Machine.InstallLinux` | src/service-install/linux.ts:78-233 | The whole Linux install: the log is the specified forward and rollback commands. |
| `XmlText.DecodeUndoesEscape` | src/service-install/shared.ts:64-108 | Decoding an escaped text gives the text back. |
| `XmlText.EscapedIsCleanAndDistinct` | src/service-install/shared.ts:64-71 | Escaped text holds no markup character, and different texts stay different. |
| `XmlText.RefusesStrayAmpersands` | src/service-install/shared.ts:89-92 | The decoder refuses a text if and only if some ampersand starts no entity. |
| `XmlText.EscapeByCharacter` | src/service-install/shared.ts:64-71 | The five replacements one after the other are one replacement per character. |
| `XmlEntities.DecodeExactly` | src/service-install/shared.ts:90-108 | For all texts: the decoder accepts exactly the rows of characters, the five names and numbers in decimal or hexadecimal digits, and answers with what each stands for, the replacement character for numbers that are no character. |
| `XmlEntities.NumberIsWorth` | src/service-install/shared.ts:99-103 | Reading a number digit by digit gives its positional value, the first digit counting most. |
| `WindowsArguments.BodyIsBothPasses` | src/service-install/shared.ts:193-195 | The two replacement passes together double exactly the backslashes before a quote or the end. |
| `WindowsArguments.ParsesBack` | src/service-install/shared.ts:193-195 | Quoted and plain arguments side by side are read back as the same list by Microsoft's documented rules. |
| `WindowsArguments.TaskArgumentsParseBack` | src/service-install/windows.ts:48-57 | For all paths the scheduled task starts the command line interface with exactly its six arguments. |
| `WindowsArguments.TaskArgumentsAreDistinct` | src/service-install/windows.ts:48-57 | Equal argument texts name equal paths. |
| `SystemdUnit.QuotedListReadsBack` | src/service-install/shared.ts:73-75 | A quoted argument list is read back as exactly the arguments. |
| `SystemdUnit.QuoteIsInjective` | src/service-install/shared.ts:73-75 | Different values stay different when quoted. |
| `SystemdUnit.DefinitionLines` | src/service-install/shared.ts:142-147 | Splitting and trimming a generated definition gives back its lines. |
| `SystemdUnit.SameDirectorySameUnit` | src/service-install/shared.ts:77-87 | The unit depends on the runtime directory alone once its owner is checked. |
| `SystemdUnit.MatchesExactly` | src/service-install/shared.ts:149-191 | A definition generated for one accepted installation matches another if and only if record version, user, home, runtime directory, node, command line interface, namespace and control socket agree. |
| `UnitContents.DefinitionSays` | src/service-install/shared.ts:730-772 | Read from its text line by line, the definition of an accepted installation gives its user, home and runtime directory once each, requires the unit of the runtime directory if any, and its command reads back as node, command line interface and the arguments in order; its first line is the owner marker of its record version. |
| `UnitContents.DefinitionLinesAre` | src/service-install/shared.ts:748-772 | Its lines in order: the marker, three sections apart from each other, and a line break at the end. |
| `UnitContents.RuntimeUnitExactly` | src/service-install/shared.ts:77-88 | A unit is named exactly for `/run/user/` and digits, alone or before a slash, under the second record version, and only for the number of the user; any other number there is refused. |
| `UnitContents.DecimalReadsBack` | src/service-install/shared.ts:77-88 | The number in the name of the unit reads back. |
| `UnitContents.PlainUserExactly` | src/service-install/shared.ts:236-240 | Up to a dollar sign at its end, an accepted user name is a letter or underscore and then letters, digits, underscores and hyphens. |

## Left out

- ElevatedSequence.ExecutorsAgreeExactly: a child prints less than the 10 MiB that the in-process runner buffers, ends some time if left alone, and does not depend on which executor runs it; authorization prompts and `osascript` itself are not modelled.
- ControlServer.TakeoverToldOnce: notices are counted when they are written; the writer drops one whose socket was destroyed while its cleanup still waits.
- ControlServer.ControlServer: connection states are values in a map, so aliasing of a state object between callbacks is not modelled.
- ControlServer.RegistryRefinesHistory: no data follows the end or close of a connection, and the interval between the reply to a stop request and the daemon's stop is not covered.
- ControlClient.ClaimedCoversHeld: request time-outs, reconnection and `close` are not part of the joint system; request ids never repeat.
- ControlClient.HeartbeatRoundReconciles: the round starts with an idle shared slot, which is what a round without interleaved steps means.
- PluginRecovery.LostIsNeverReclaimed: a client whose socket is gone delivers at most the rest of its last chunk; a connection that opens sends its registration in the same turn, closing an open client always finishes, and heartbeat timers are any moment at which a loss is learned.
- PluginSetup.ServerSetup: upstream resolution, signal handlers, retries of a failing close and log lines are not modelled.
- PluginOutcomes.ShutdownEndsClientsExactly: a run that never comes to rest is not covered; what keeps an exiting process alive is not modelled.
- StartupLock.MutualExclusion: reading a stale lock and unlinking it is one step, and every caller is a process of its own.
- StartupLock.UnsoundClearBreaksExclusion: the run that goes on ends with a missing socket, which is up to the surroundings.
- StartupLock.StartedExactlyOnce: probes see what is there, the first start succeeds and its daemon stays up; deadlines are any moment at which a process gives up.
- InstallationRecords.VersionsNeverDecrease: uninstalls and interrupted installs between the calls are excluded, as the promise is about successful calls.
- InstallationRecords.FailureRestoresRecord: the time stamp of the planned record is new, so that the record fallen back to is not the one the call would have committed.
- InstallationRecords.RecordsSurviveCrashes: writing through a temporary file and renaming it is one atomic step; uninstalls are excluded.
- MacosStart.SingleEnabledAfterFailedStart: identifiers are distinct; a failed command may leave its target loaded or running in any way but does not change whether it is enabled.
- MacosCompletion.SuccessfulUpdate: a wait that ends well found what it waited for, the service gone or answering.
- MacosInstall.ArmedUpdateRestores: a first installation without a record is not modelled; removing temporary files afterwards is not either.
- LegacyRollback.StartIsSafe: the canonical identifier is not among the legacy ones, which the installer refuses, and outcomes of file operations are outcomes of one command each.
- LegacyRollback.Machine.InstallLinux: the identifier of an existing canonical record equals the planned one.
- CaMigration.CrashesAreResumable: namespaces are distinct, sources do not change, and the holder of the migration lock is the only writer; an unreadable marker and unsafe paths stop a run like any failure.
- CaMigration.SelectedIsNewest: `localeCompare` on installation times is comparison by code unit; which key and certificate make a valid authority is an answer of each run about the pair, which sources are trusted one about the namespace.
- Lifecycle.SourceIsForemost: `localeCompare` on times and namespaces is comparison by code unit.
- Lifecycle.DecidesExactly: two inspected installations are the same when all modelled fields are.
- XmlText.DecodeUndoesEscape: texts are sequences of Unicode scalar values; a numeric entity for a surrogate reads as U+FFFD.
- WindowsArguments.TaskArgumentsParseBack: replacing a prefix by `%LOCALAPPDATA%` beforehand is not modelled.
- SystemdUnit.QuotedListReadsBack: the reader is this project's rendering of the quoting rules of the systemd.service manual page, command lines, for quoted items with backslash, quote and percent escapes; references to environment variables in a value are not modelled.
- SystemdUnit.MatchesExactly: the converse for hand-edited definitions is not stated; sanitizing the namespace key and the length limits of `safeServiceKey` are not needed and not assumed.
- ControlMessages.ReparsingChangesNothing: JSON text grammar is outside; values are what JSON parsing yields, and the test for literal IP addresses is a parameter that accepts nothing starting with a bracket.
- Framing.EncodedStreamReadsBack: encoded JSON is any text without a raw line break that is not blank.
- Matching launchd definitions and scheduled-task ownership: foreign XML beyond the escaping of values.
- The Windows branch of `replaceStartupService`, the rollback inside `installWindows`, `startOwnedStartupService` and `uninstallStartupService`: tied to scheduled-task output, or single commands.
- `autoStart` and its authorization locks: the same lock primitives around interactive prompts.
- Discovery of installations, trust stores, certificates, proxying, the command line and diagnostics: foreign calls, stream plumbing or user interface.
- Importing certificates after the authority: a sequence of independent idempotent copies.
