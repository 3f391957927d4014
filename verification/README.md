# llmtune, modelled and proved in Dafny

llmtune runs local language-model servers on small machines. This project models
the parts of it that keep promises across failures, and proves those promises:

- `BootServer`: `netboot up` and `netboot down`, over the live host (firewall rules,
  services, NFS export, nftables table) and the record on disk.
- `BuildStore`: the versioned build store with its staging directories, `current`
  link, install ledger, rollback and retention.
- `DropIns`, `Swap`, `Cluster`: systemd drop-in layering, the model swap with
  auto-revert on top of it, and whole-cluster bring-up on top of that.
- `Gguf`: the GGUF header reader.
- `SwapGate`: the proxy's gate among several workers.
- `UnitEnv`, `ShellQuote`, `Identity`, `CivilDate`, `MemFit`, `NetbootImage`: the
  printer and parser pairs, the calendar arithmetic, the memory arithmetic and the
  image store. `Text` holds the string functions they share.

## How it is built

Each operation has a pure function that gives its whole effect. Where the source
changes things step by step, a class or method with the source's loops and early
returns is proved equal to that function, and the lemmas are about the function. Beside
the laws stand theorems that say what each function does without naming it: ports,
services, byte widths, words and file names are then written out in the statement.

Failure is chosen by an environment: `env(call)` says whether a call takes effect
or fails without one. It is a parameter, so a lemma holds for every pattern of
failures except what its `requires` asks of the environment: that reading a directory
yields the files in it, and, for the recency list of the build store, that removing a
version works. In `BuildStore` a command yields the list of
all stores it passes through, so a crash between any two filesystem calls leaves
one of them. `Swap` and `Cluster` are stated over an arbitrary actuator, health
probe and worker control that may do anything to an arbitrary world; the systemd
actuator is then one instance.

## Where the code and its comments differ

The model follows the code. Each difference is a theorem:

- `netboot down` removes the exports drop-in and then runs `exportfs -ra`. If only
  the second fails, the next `down` finds no file, re-runs nothing and deletes the
  record while the export is still served (`BootServer.ExportStaysLive`).
- A firewall listing or service probe that fails reads as "absent", so what was
  already there is recorded as llmtune's own, and the next `down` takes it away.
  `BootServer.UpExact` says exactly when, for runs that finish and runs that stop
  anywhere; `BootServer.StoppedUpOverclaims` is one.
- If the nftables table is made but its chain is not, `up` stops with a live table
  that no record owns (`BootServer.OwnTableExact`, `BootServer.HalfTableUnowned`).
- Without a record `down` still stops and disables the HTTP unit, even when it was
  running before llmtune (`BootServer.DownUnrecordedExact`,
  `BootServer.UnrecordedDownStopsUnit`).
- `up` opens each required port once, except that an HTTP port of 111 or 2049 repeats an
  NFS port: its rule is then added and recorded twice (`BootServer.RepeatedPortClaimedTwice`).
- An install that stops between renaming a version, flipping `current` and saving the
  ledger leaves them disagreeing; after a lost ledger save the next install removes a
  version it should keep (`BuildStore.InstallShowsExact` says exactly when,
  `BuildStore.LostLedgerSaveDropsVersion` is an input).
- `stage` ignores a failing removal of an earlier drop-in, which may then sort after the
  staged one: the swap reports success and the old file governs (`DropIns.StagedWins`,
  `Swap.SystemdSuccessWins`, `Swap.SuccessUnderOldDropin`).
- `stage` removes every earlier model-select drop-in but remembers only the first, and
  a staging write that is cut short after creating the file is not undone
  (`DropIns.RollbackExact`, `Swap.SystemdRevertExact`, `DropIns.TwoOwnNotRestored`).
- The cluster's documentation promises a clean teardown on any failure. A commit that
  fails stops no worker (`Cluster.NeverHalfForms`, `Cluster.FailedCommitLeaksWorker`).
  A stage or restart error is followed by no rollback of the head
  (`Cluster.HeadRolledBackExactly`): a failed stage has already removed llmtune's
  earlier drop-ins, a failed restart leaves the new one in place.
  `Cluster.FailedUpHeadExact` says exactly when the head's files survive,
  `Cluster.FailedLaunchLosesOwn` is an input where they do not.
- The swap gate's comment says the wait is rounded up; the code rounds down, so a
  client that waits as told can be refused once more (`SwapGate.TooEarlyExactly`,
  `SwapGate.HalfSecondShort`).
- An environment value with a double quote, or an unspaced one with a single quote,
  does not survive rendering and parsing (`UnitEnv.DropinRoundTripExact`,
  `UnitEnv.QuoteDoesNotSurvive`).
- KV-cache sizes are rounded down to bytes, so one token more than the maximum can
  still show as within the budget (`MemFit.OneMoreShowsExactly`).
- `rollback` says it picks a valid version but does not look for the binaries; the store
  invariant makes up for it (`BuildStore.EveryStepSane`).

## Model

| member | source | states |
|---|---|---|
| BootServer.TokenRoundTrip | src/netboot_server.rs:71-73 | a recorded rule token reads back as the rule it was written for, for every port and protocol |
| BootServer.TokenReadsExactly | src/netboot_server.rs:473-486 | a token is read as a rule exactly when it is a 16-bit number, with or without a plus sign, a slash and `tcp` or `udp` |
| BootServer.BackendReads | src/netboot_server.rs:1165-1176 | a recorded backend is read as one exactly when it is `ufw`, `nftables` or `none` |
| BootServer.RequiredPortsDistinct | src/netboot_server.rs:78-119 | the requested port list repeats no rule exactly when the HTTP port is neither 111 nor 2049 |
| BootServer.MergePriorExact | src/netboot_server.rs:437-458 | folding a duplicate-free earlier record into a fresh one loses and repeats nothing |
| BootServer.MergeUnites | src/netboot_server.rs:437-458 | in general the record in hand stays in front, each earlier claim is added once, the flags are united and its own backend wins |
| BootServer.StartServicesExact | src/netboot_server.rs:1047-1072 | wherever the service phase stops, the record accounts for the host if and only if every service it got to that was already up answered its probes |
| BootServer.ServicesStop | src/netboot_server.rs:1047-1072 | services come up in order until the first that fails; exactly those run and are enabled, and the record is saved if and only if one of them was not seen up before |
| BootServer.ExportStops | src/netboot_server.rs:1076-1102 | wherever the export phase stops: when it completes, what is on the host, what is claimed and whether that is saved |
| BootServer.OpenPortsExact | src/netboot_server.rs:1198-1218 | wherever the rule loop stops, for any listing it was given, the record accounts for the live rules if and only if no rule it added was there before |
| BootServer.PortsStop | src/netboot_server.rs:1198-1218 | missing ports are opened in order until the first that fails, each is claimed, and those seen open are passed over |
| BootServer.TableStops | src/netboot_server.rs:1252-1267 | the table comes before its chain and is claimed only with it |
| BootServer.OwnTableExact | src/netboot_server.rs:1252-1267 | creating llmtune's own table keeps the accounting if and only if the table existed or table and chain come together |
| BootServer.HalfTableUnowned | src/netboot_server.rs:1252-1267 | an input on the failing side: on a bare host a table made without its chain ends outside the record |
| BootServer.UpAccounted | src/netboot_server.rs:983-1120 | in particular it does whenever every probe that matters answers, no table is left half made and no port is asked for twice |
| BootServer.RepeatedPortClaimedTwice | src/netboot_server.rs:78-119 | an input on the failing side: serving HTTP on port 2049, an `up` in which everything works claims that rule twice |
| BootServer.StoppedUpOverclaims | src/netboot_server.rs:1047-1075 | an input on the failing side: one misread service, then a stop; the checkpoint claims the NFS server that was there, and the next `down` stops it |
| BootServer.UpExact | src/netboot_server.rs:983-1120 | for every pattern of failures, finished or stopped anywhere, the record on disk owns exactly what the host has beyond its baseline if and only if every service reached that was up said so and, if the firewall phase is reached, its table is safe and no rule it adds was there |
| BootServer.UpCompletesExactly | src/netboot_server.rs:983-1120 | an `up` completes if and only if the preflight, each needed service, the export calls it reaches, and each rule it does not see open work |
| BootServer.CompletedUpServes | src/netboot_server.rs:1047-1120 | a completed `up` has added to the host exactly the HTTP unit, the NFS server and, if it is part of the stack, dnsmasq, running and enabled; the export, served; its own table under nftables; and, port by port and by number, the needed rules it did not see open |
| BootServer.UpTwiceChangesNothing | src/netboot_server.rs:983-1120 | a second `up` after a completed one changes neither host nor record, wherever it stops |
| BootServer.DownRecordedOwned | src/netboot_server.rs:1313-1365 | a recorded `down`, with any subset of removals failing, leaves a record of exactly what is still live, if and only if it is not the case that the drop-in was removed and `exportfs` then failed; without failures it owns nothing |
| BootServer.DownTakesEach | src/netboot_server.rs:1313-1365 | every removal is asked for whichever others fail: service by service and rule by rule, what is still live and what is still recorded is exactly that whose own call failed |
| BootServer.DownFirewallParts | src/netboot_server.rs:1433-1518 | the same of the firewall on any host: rule by rule under ufw, the whole table or its flush under nftables |
| BootServer.StopsLastFirst | src/netboot_server.rs:1340-1355 | services are stopped in the reverse of the order in which they were recorded |
| BootServer.DownUnrecordedExact | src/netboot_server.rs:1367-1393 | an unrecorded `down` leaves the baseline alone if and only if the HTTP unit was idle or could not be stopped |
| BootServer.UnrecordedDownTakes | src/netboot_server.rs:1367-1393 | what an unrecorded `down` takes, part by part: the HTTP unit, the drop-in, the export, and the own table if the steps before it worked |
| BootServer.UnrecordedDownStopsUnit | src/netboot_server.rs:1367-1393 | an input on the failing side: an HTTP unit that was there before is stopped and disabled |
| BootServer.DownAccounted | src/netboot_server.rs:1305-1394 | `down` keeps the accounting and deletes the record only when the host is back at its baseline |
| BootServer.HistoryExact | src/netboot_server.rs:983-1518 | over any sequence of `up` and `down` with any calls failing, the record accounts for the host after every step if and only if every `up` meets the condition of `UpExact` and every `down` that of its own theorem |
| BootServer.HistoryAccounted | src/netboot_server.rs:983-1518 | so after any sequence whose steps meet that condition the host is its baseline plus, disjointly, exactly what the record owns |
| BootServer.CleanDownRestores | src/netboot_server.rs:1305-1394 | after any such sequence one `down` without a failed call gives back exactly the baseline and no record |
| BootServer.BaselineSurvives | src/netboot_server.rs:983-1518 | after any history whose steps meet the condition of `HistoryExact`, every rule, service and export that was there before llmtune still is |
| BootServer.ExportStaysLive | src/netboot_server.rs:1326-1337 | counterexample family: `exportfs` failing after the removal, then a clean `down`, ends with no record and a live export |
| BootServer.Server.Up | src/netboot_server.rs:983-1120 | the step-by-step `up` ends in exactly the host, record and verdict of `AfterUp` |
| BootServer.Server.OpenFirewall | src/netboot_server.rs:1181-1298 | the rule loop with its checkpoints ends in exactly `OpenedFirewall` |
| BootServer.Server.Down | src/netboot_server.rs:1305-1394 | the step-by-step `down` ends in exactly `AfterDown` |
| BootServer.Server.UndoExport | src/netboot_server.rs:1327-1335 | the drop-in is removed and then the exports re-read, stopping at the first call that fails |
| BootServer.Server.DownConservatively | src/netboot_server.rs:1367-1393 | the unrecorded `down`, call by call up to the first checked one that fails, leaves exactly the host of `DownUnrecorded` |
| BootServer.Server.WithdrawServices | src/netboot_server.rs:1340-1355 | each recorded service is stopped or disabled, the ones that would not are returned in order |
| BootServer.Server.CloseFirewall | src/netboot_server.rs:1433-1518 | recorded rules are removed one by one; failed and unreadable tokens, or the whole table, stay owned |
| BuildStore.ShaSlugIsPlain | src/build.rs:179-198 | the slug of a resolved commit is 7 to 12 lower-case hex digits and never a name the store reserves |
| BuildStore.SlugIsPrefix | src/build.rs:179-194 | a hex commit is shortened to its first twelve digits in lower case, any other ref to its first 24 characters with hyphens for those that are not plain |
| BuildStore.SlugsAgree | src/build.rs:179-194 | two full hashes share a slug if and only if their first twelve digits agree up to case |
| BuildStore.SaneMeans | src/build.rs:296-316 | sanity in words: `current` names an installed version and every version holds every binary under a name that is not reserved |
| BuildStore.EveryStepSane | src/build.rs:282-494 | every store that an install, rollback or collection passes through, with any calls failing, has a `current` naming an installed version and only complete version directories |
| BuildStore.HistorySane | src/build.rs:325-494 | the same after any sequence of commands, stopped after any number of filesystem calls of the last |
| BuildStore.FailedBuildInvisible | src/build.rs:377-400 | a failed or incomplete build changes no version, ledger entry or link at any step |
| BuildStore.FillPasses | src/build.rs:377-400 | a build touches its staging directory and nothing else, and a failed one leaves it only if it cannot be dropped |
| BuildStore.PlaceExact | src/build.rs:402-405 | placing succeeds if and only if the rename works and no leftover is in its way; it replaces the leftover, or only takes it away |
| BuildStore.FlipPasses | src/build.rs:282-293 | `current` goes from the old version to the new in one step; a flip that fails leaves at most its temporary link |
| BuildStore.GcBound | src/build.rs:464-494 | collection keeps `current` and, when removals work, leaves exactly the keep set, at most max(retain,1)+1 versions |
| BuildStore.NewestExact | src/build.rs:464-494 | kept as new are exactly the installed versions with a ledger entry that fewer than n entries of installed versions follow |
| BuildStore.GcExact | src/build.rs:464-494 | whichever calls fail, a version goes if and only if it is not current, not among the newest, and its own removal works; the ledger loses exactly what is not kept, if it can be rewritten |
| BuildStore.GcKeepsNewest | src/build.rs:464-494 | right after an install, collection leaves exactly the newest max(retain,1) ledger entries, unless the ledger is too long and cannot be rewritten: then no list describes the store |
| BuildStore.InstallShowsExact | src/build.rs:325-421 | from a store showing a recency list, one install, whichever calls but version removals fail, leaves a store showing a list if and only if it does not stop after placing a version, after the flip, or before rewriting a ledger that is too long; it is then the old list, or the slug moved to the end and the oldest dropped |
| BuildStore.LostLedgerSaveDropsVersion | src/build.rs:408-410 | an input on the failing side: a ledger save fails, and the next install removes the version, with retention three and two installed |
| BuildStore.InstallsAreLru | src/build.rs:325-494 | over any run of requests, each with its own build outcome and its own failing calls other than version removals, the store shows a list after every request if and only if none stopped half way, and it is then exactly the last max(r,1) distinct slugs among the delivered ones |
| BuildStore.WorkingDiskIsWhole | src/build.rs:325-421 | where every call works no request stops half way, and a request is delivered if and only if it resolves and its slug is installed or its build complete |
| BuildStore.NewCommitIsBuilt | src/build.rs:325-421 | on a working disk a request that resolves to a new slug, with a complete build, adds exactly that build and makes it current |
| BuildStore.RollbackPicks | src/build.rs:432-460 | rolling back goes to the newest ledger entry that is installed and not current, or to any other version if there is none, and refuses only when no other is installed |
| BuildStore.RollbackTwiceReturns | src/build.rs:432-460 | after an install, rolling back goes to the entry before the newest and, whenever the flips work, rolling back again returns; with one version it fails and changes nothing |
| BuildStore.Depot.PointCurrent | src/build.rs:282-293 | the link flip passes through exactly the stores of `FlipCurrent` |
| BuildStore.Depot.TouchLedger | src/build.rs:424-429 | the ledger update takes its one step or fails without effect |
| BuildStore.Depot.Collect | src/build.rs:464-494 | the removal loop and the ledger rewrite pass through exactly the stores of `Gc` |
| BuildStore.Depot.MakeCurrent | src/build.rs:408-410 | flip, ledger and collection in sequence, stopping at the first failure |
| BuildStore.Depot.FillStaging | src/build.rs:377-400 | clearing, filling and checking the staging directory pass through exactly the stores of `Stage` |
| BuildStore.Depot.Build | src/build.rs:377-405 | staging, building, checking and renaming pass through exactly the stores of `Compile` |
| BuildStore.Depot.InstallBuild | src/build.rs:325-421 | an install passes through exactly the stores of `Install`, on all its branches |
| BuildStore.Depot.RollBack | src/build.rs:432-460 | the newest-first ledger walk with its fallback ends in exactly `Rollback` |
| DropIns.WinningNameWins | src/swap.rs:718-729 | the chosen name is strictly greater in byte order than every foreign name |
| DropIns.WinningNameStable | src/swap.rs:718-729 | the chosen name depends only on which foreign names there are |
| DropIns.CollectExact | src/swap.rs:637-695 | the scan of all roots finds exactly the removable drop-ins and exactly those that stay |
| DropIns.OthersUntouched | src/swap.rs:637-979 | whatever calls fail, a stage and a rollback change no file but llmtune's own marked drop-ins and the staged one, under `/etc`, or `/run` if `/etc` cannot be written |
| DropIns.StagedWins | src/swap.rs:944-969 | a stage that reports success has written the rendered text, and that file is last in the merge of all roots if and only if it outsorts every own drop-in whose removal failed |
| DropIns.KeptOwnWins | src/swap.rs:944-969 | an input on the failing side: one own drop-in with a late name whose removal fails; the stage succeeds and does not win |
| DropIns.RestageSameName | src/swap.rs:944-969 | staging again on the result, whichever removals failed, picks the same file, so names never grow |
| DropIns.RollbackExact | src/swap.rs:944-979 | a successful rollback after a stage, finished or not, restores every drop-in byte for byte if and only if the stage lost at most the first own one and no cut-short write made a new file |
| DropIns.StageKeepsExact | src/swap.rs:944-969 | a stage that nothing undoes leaves every drop-in as it was if and only if, failing, it removed no own one and left no torn file, or, succeeding, it wrote again what was there and removed nothing else |
| DropIns.FailedStageLosesOwn | src/swap.rs:951-965 | an input on the failing side: one own drop-in and a failing `mkdir`; the stage fails and the drop-in is gone |
| DropIns.UndoExact | src/swap.rs:944-979 | after a completed stage a rollback, successful or not, restores every drop-in if and only if at most the remembered one was lost and could be written again, or none was lost and it was not touched, or the staged file could not be removed but changed nothing |
| DropIns.CommittedStays | src/swap.rs:971-985 | after a commit no rollback brings an earlier drop-in back |
| DropIns.RollbackTwice | src/swap.rs:971-979 | a second rollback changes nothing unless the first could not remove the staged file; it then leaves that file and brings the earlier one back |
| DropIns.TwoOwnNotRestored | src/swap.rs:953-976 | inputs on the failing side: of any two own drop-ins a successful rollback brings back one |
| Swap.PollLog | src/swap.rs:469-479 | health polling only probes, at most `attempts` times, and stops at the first healthy answer |
| Swap.PollAnswers | src/swap.rs:469-479 | polling says yes if and only if one of the first `attempts` answers is a yes, and asks no further |
| Swap.SystemdSwapExact | src/swap.rs:310-465 | over the answers a run is given, a swap succeeds if and only if the model is served already, or the binary is a path, stage and restart work, a probe is answered, and the server names no other model; it is an error if and only if another model is served and the binary is no path |
| Swap.ErrExactly | src/swap.rs:310-465 | for every actuator, a swap is an error if and only if another model is served and the binary is no path or the commit is refused |
| Swap.SuccessIsTruthful | src/swap.rs:310-438 | for every actuator and probe, success means already served, or staged, restarted, seen healthy, no other model reported, and committed last |
| Swap.FailureIsTruthful | src/swap.rs:310-465 | a reported failure came of a failed stage or restart, of no healthy probe, or of another model's name; it rolled back exactly once, and `reverted` holds exactly when rollback and restart both worked |
| Swap.NeverBoth | src/swap.rs:310-465 | no swap both commits and rolls back |
| Swap.RevertedMeansRestored | src/swap.rs:310-465 | if rollback undoes stage when it reports success, `reverted` means the world is restored |
| Swap.SuccessKeepsStaged | src/swap.rs:310-438 | success after staging leaves in force what the stage established |
| Swap.SystemdRevertExact | src/swap.rs:310-985 | with the systemd actuator, `reverted` means the drop-ins are back byte for byte exactly under the condition of `DropIns.RollbackExact` |
| Swap.SystemdSuccessWins | src/swap.rs:310-985 | with the systemd actuator, success after staging leaves the rendered drop-in in place, and winning the merge of all roots exactly under the condition of `DropIns.StagedWins` |
| Swap.SuccessUnderOldDropin | src/swap.rs:310-985 | an input on the failing side: the swap reports success while an earlier drop-in that could not be removed governs |
| Swap.Service.Poll | src/swap.rs:469-479 | probes up to `attempts` times and stops at the first healthy answer, leaving the world and verdict of `PollHealth` |
| Swap.Service.UndoStage | src/swap.rs:440-465 | rollback, restart and a wait for the previous model, reported as they went |
| Swap.Service.SwapModel | src/swap.rs:310-465 | the swap, through every early return, leaves the world, log and outcome of `SwapTo`, about which the lemmas above speak |
| Cluster.NeverHalfForms | src/cluster.rs:100-204 | every return other than success has stopped exactly the started workers, once each and in order, if and only if there are none, or a worker keeps the head from being launched, or the head's commit is not refused |
| Cluster.FailedCommitLeaksWorker | src/cluster.rs:173-177 | an input on the failing side: one worker and a failing commit leave the worker running |
| Cluster.SuccessMeansServing | src/cluster.rs:100-190 | success means every worker was started, seen accepting and not stopped, and the head was launched with their endpoints, healthy and committed |
| Cluster.HeadRolledBackExactly | src/cluster.rs:163-204 | a rollback of the head is attempted exactly when it restarted but never became healthy |
| Cluster.LaunchVerdict | src/cluster.rs:163-204 | a launch answers up if and only if the commit worked, taken back if and only if the rollback and the restart after it worked, and is an error otherwise |
| Cluster.UpSucceedsExactly | src/cluster.rs:100-204 | with the systemd actuator, a bring-up succeeds if and only if every worker starts and accepts, the stage's calls and the restart work, and some health probe is answered |
| Cluster.WillingRackReachesHead | src/cluster.rs:118-144 | workers that start, and accept within the attempts, bring the bring-up to its head |
| Cluster.PollAcceptExact | src/cluster.rs:84-94 | a worker is asked until it accepts, as often as it may be |
| Cluster.FailedUpHeadExact | src/cluster.rs:100-204 | a bring-up that does not succeed leaves the head's drop-ins byte for byte as they were if and only if a worker keeps the head from being launched, or the answers given to its stage, restart and rollback say so |
| Cluster.FailedLaunchLosesOwn | src/cluster.rs:163-171 | an input on the failing side: one own drop-in on the head and a failing `mkdir`; the bring-up fails and the drop-in is gone |
| Cluster.RpcListExact | src/cluster.rs:42-48 | the head's flags gain one `--rpc` word whose comma-separated parts are exactly the endpoints |
| Cluster.EndpointReads | src/cluster.rs:36-39 | an endpoint reads back as the worker's host, or else its name, and the port |
| Cluster.SoloFlags | src/cluster.rs:42-48 | without workers the flags stay as they are |
| Cluster.TeardownTally | src/cluster.rs:60-70 | teardown calls stop on every worker in order, whatever the stops report, and touches nothing of the head |
| Cluster.Rack.StopAll | src/cluster.rs:60-70 | every worker gets its stop call even when an earlier one fails: the world and log of `Teardown` |
| Cluster.Rack.WaitAccepting | src/cluster.rs:84-94 | asks up to `attempts` times and stops at the first acceptance, leaving the world and verdict of `PollAccept` |
| Cluster.Rack.BringUp | src/cluster.rs:100-204 | bring-up, through every early return, leaves the world, log and result of `Up`, about which the lemmas above speak |
| Cluster.Rack.LaunchOn | src/cluster.rs:163-204 | the head is launched through the swap's own polling, and workers are stopped on every path that does not reach the commit |
| Gguf.ValRoundTrip | src/model.rs:82-124 | reading an encoded value, arrays nested arbitrarily, gives its meaning and stops at the first byte after it, exactly when text length and nesting are within the limits; else it fails |
| Gguf.ScalarReads | src/model.rs:82-124 | every scalar type of the format, by its number: so many bytes, read if and only if they are there, and the unsigned, two's-complement, float or truth value they stand for |
| Gguf.TextReads | src/model.rs:65-72 | text is a 64-bit length, at most 64 MiB, and that many bytes |
| Gguf.Refused | src/model.rs:82-124 | an unknown type and an array below eight others are refused |
| Gguf.HeaderReads | src/model.rs:149-165 | a header is read if and only if it begins with `GGUF` and has 24 bytes |
| Gguf.KvsRoundTrip | src/model.rs:207-214 | reading a metadata block yields the last-written scalar per key and stops at the first byte after it |
| Gguf.MetaRoundTrip | src/model.rs:199-216 | for every well-formed header, whatever follows, the metadata read is exactly the last scalar per key and ends where the tensor infos begin |
| Gguf.MetaExact | src/model.rs:199-216 | on any bytes at all, the metadata read gives a map and stops somewhere if and only if the bytes are a header whose entries, within the limits, leave that map, followed by what is left |
| Gguf.MtpScanExact | src/model.rs:149-196 | the tensor scan is true if and only if some tensor name mentions `nextn` or `mtp` |
| Gguf.MtpNames | src/model.rs:176-182 | a name counts if and only if the letters of `nextn` or `mtp` occur in it, in either case |
| Gguf.ScanExact | src/model.rs:149-196 | on any bytes at all, the scan is true if and only if the bytes are a header, whole tensor infos and, within the declared count, a name that counts |
| Gguf.ValCostBound | src/model.rs:82-124 | on arbitrary bytes and any declared counts, the loop iterations that `TakeVal` starts are fewer than the bytes it consumes, or when it fails at most the remaining bytes plus the remaining depth |
| Gguf.WorkBounded | src/model.rs:149-196 | on arbitrary bytes the iterations that `FindMtp` starts, in all its loops, are at most the bytes of the file |
| Gguf.Reader.TakeN | src/model.rs:51-55 | the bytes read are the next ones, and the reader advances by exactly that many |
| Gguf.Reader.TakeUint | src/model.rs:57-63 | a little-endian number of the given width is consumed |
| Gguf.Reader.TakeText | src/model.rs:65-72 | a length-prefixed text within the cap is consumed, else the read fails |
| Gguf.Reader.TakeVal | src/model.rs:82-124 | the recursive reader terminates, consumes exactly what `ReadVal` says, and starts exactly `ValCost` loop iterations |
| Gguf.Reader.TakeArray | src/model.rs:103-113 | an array within the depth cap: element type, count and elements are consumed and nothing is stored |
| Gguf.Reader.TakeElems | src/model.rs:110-112 | the element loop, for any declared count, stops at the first element that fails and counts its iterations |
| Gguf.Reader.TakeHeader | src/model.rs:154-164 | magic, version and the two counts are consumed, else the read fails |
| Gguf.Reader.TakeKvs | src/model.rs:207-214 | the metadata loop fills the map of `ReadKvs`, stops where it stops, and counts its iterations |
| Gguf.Reader.TakeMeta | src/model.rs:199-216 | the metadata read gives `ReadMeta` and starts no more iterations than the file has bytes |
| Gguf.Reader.SkipTensorInfo | src/model.rs:183-193 | the rest of a tensor info is consumed exactly |
| Gguf.Reader.FindMtp | src/model.rs:149-196 | the whole scan, on any bytes, gives the answer of `HasMtpTensors` within at most as many loop iterations as the file has bytes |
| SwapGate.MutualExclusionAndHold | src/proxy.rs:103-164 | in every interleaving of any number of workers at most one is inside, and every swap begins at least `hold` after the previous one ended |
| SwapGate.RunRecords | src/proxy.rs:103-164 | what one more request or finish adds to any interleaving: who is inside afterwards and which swap began or ended |
| SwapGate.GateAnswers | src/proxy.rs:103-117 | in every reachable state, busy is answered exactly while a worker is inside, proceed exactly when none is and the hold has passed, and otherwise the whole seconds left, at least one |
| SwapGate.BeginExactly | src/proxy.rs:103-155 | the answer and the new state of the gate in any state and at any time, even one before it was last closed |
| SwapGate.RefusedAtMostTwice | src/proxy.rs:103-117 | a client that waits at least as long as told, with no other swap between, is refused at most twice |
| SwapGate.TooEarlyExactly | src/proxy.rs:111-117 | a client that waits exactly as told is refused twice if and only if more than a second remained and it was not a whole number of seconds |
| SwapGate.HalfSecondShort | src/proxy.rs:111-117 | an input on the failing side: a hold of two and a half seconds refuses the waiting client twice |
| SwapGate.SwapGate.BeginSwap | src/proxy.rs:144-155 | the decision and the new state are those of `Begin` |
| SwapGate.SwapGate.FinishSwap | src/proxy.rs:160-164 | the gate opens and the hold is armed |
| SwapGate.SwapGate.EnsureServed | src/proxy.rs:278-314 | the served model passes without touching the gate; a load, successful or not, always arms the hold |
| UnitEnv.DropinRoundTripExact | src/swap.rs:81-177 | parsing a rendered drop-in gives back its environment if and only if no value holds a double quote and no unspaced value a single quote |
| UnitEnv.QuoteDoesNotSurvive | src/swap.rs:171-177 | an input on the failing side: a value with a double quote comes back changed |
| UnitEnv.CleanSplits | src/swap.rs:171-177 | a clean assignment is split as the one word `k=v` |
| UnitEnv.UncleanSplits | src/swap.rs:237-256 | an unclean assignment is split into words that begin with `k=` but are all too short to be `k=v` |
| UnitEnv.RenderedPrecedence | src/swap.rs:81-166 | what a rendered drop-in gives the server, read back, is each key from the profile, else the library path, else the base unit, and none is lost |
| UnitEnv.DropinTakesOver | src/swap.rs:91-110 | read after any other unit text, a rendered drop-in gives the same environment as alone |
| UnitEnv.OtherSectionIgnored | src/swap.rs:204-232 | outside the service section no line counts |
| UnitEnv.CommentRead | src/swap.rs:204-232 | comments are passed over |
| UnitEnv.WordAssigns | src/swap.rs:224-230 | a word assigns what follows its first equals sign to what comes before it, unless that is empty |
| UnitEnv.LaunchWords | src/swap.rs:127-146 | the launch line splits into the launcher's words, the binary, model, host and port in their places, and then the words of the flags |
| UnitEnv.LaunchLinesAre | src/swap.rs:122-146 | a drop-in sets the working directory if there is one, clears the launch command and sets its own |
| UnitEnv.NoEmptyWord | src/swap.rs:237-256 | no word is empty, however many blanks or empty quotes there are |
| UnitEnv.RenderedIsOurs | src/swap.rs:91-95 | every rendered drop-in carries the marker by which the next stage finds it |
| UnitEnv.SplitWords | src/swap.rs:237-256 | the character loop yields exactly the words of `SplitQuoted` |
| UnitEnv.ReadUnit | src/swap.rs:204-232 | the line loop, with sections, comments and resets, yields exactly the environment of `ParseUnitEnv` |
| UnitEnv.Render | src/swap.rs:81-146 | the text built line by line is the one whose round trip is characterised above |
| ShellQuote.RemoteArgsRoundTrip | src/transport.rs:283-355 | whatever the arguments contain, the remote shell splits the command back into the command words and exactly those arguments |
| ShellQuote.PlainExactly | src/transport.rs:283-292 | an argument is left unquoted if and only if it is not empty and wholly of safe characters |
| ShellQuote.BlanksCountOnce | src/transport.rs:697-731 | a run of blanks separates like one, and leading blanks give no word |
| ShellQuote.EscapedAlone | src/transport.rs:697-731 | an escaped character is a word of its own, and a backslash at the end is nothing |
| ShellQuote.RemoteCommandIsInert | src/transport.rs:283-291 | outside single quotes the command holds only blanks, safe characters and escaped quotes, and every quote is closed |
| ShellQuote.BuildRemoteCommand | src/transport.rs:350-354 | the pushed words joined by blanks are the remote command |
| ShellQuote.RemoteShellSplit | src/transport.rs:697-731 | the splitting loop yields exactly the words of `ShellSplit` |
| Identity.ParseShape | src/identity.rs:75-120 | whatever parses as a set-assignment has blank indentation, known tags, a plain name and a blank suffix |
| Identity.ParseExact | src/identity.rs:75-120 | a line is read as a set-assignment if and only if it is spelled as that one, part by part, with any blanks between the parts |
| Identity.EmptiedReparses | src/identity.rs:136-143 | an emptied assignment parses to the same indentation, tags, name and suffix with no value |
| Identity.RewrittenLine | src/identity.rs:136-147 | a line is rewritten if and only if it is an assignment with a value whose name or text locks the identity; it is then the same assignment without its value |
| Identity.NothingLocked | src/identity.rs:129-160 | in the output no assignment that locks the identity has a value |
| Identity.DebrandByLine | src/identity.rs:129-160 | the output has the input's lines, each rewritten on its own |
| Identity.DebrandIdempotent | src/identity.rs:129-160 | de-branding twice is de-branding once |
| Identity.WithoutUndoesWith | src/identity.rs:166-192 | removing the template flag after setting it equals removing it from the original flags |
| Identity.WithReplacesWith | src/identity.rs:166-177 | setting the template twice equals setting the last path |
| Identity.WithWords | src/identity.rs:166-177 | setting the template changes the word after the first flag, or adds it, or adds flag and word, and no other word |
| Identity.WithoutWords | src/identity.rs:181-192 | removing the template drops the flag and the word after it and no other |
| Identity.DebrandTemplate | src/identity.rs:129-160 | the loop returns the rewritten lines, or the very input when none was rewritten |
| Identity.AddTemplate | src/identity.rs:166-177 | replaces the value of the first template flag, or completes or appends the flag, as `WithTemplate` |
| Identity.RemoveTemplate | src/identity.rs:181-192 | drops every template flag with its value and keeps the other words in order, as `WithoutTemplate` |
| CivilDate.YearOfEraCorrect | src/fmt.rs:15 | the year formula picks the year of the era in which the day lies |
| CivilDate.CivilStep | src/fmt.rs:12-21 | consecutive days get consecutive Gregorian dates |
| CivilDate.CivilIsCounted | src/fmt.rs:12-21 | every day count gives the date reached by counting the calendar off from 1 January 1970 |
| CivilDate.DayNumberUnique | src/fmt.rs:7-23 | no two valid dates share a day number |
| CivilDate.StampIsUnique | src/fmt.rs:7-23 | every second count gives the one valid date with that day number, and the hour and minute of that day |
| MemFit.KvBytesExact | src/mem.rs:48-55 | 128-bit saturation never shows: the size is the exact cost rounded down, or the largest `u64` |
| MemFit.BlockBytes | src/mem.rs:31-44 | the bytes of a block of 32 elements for each cache type, by name and in either case |
| MemFit.MaxCtxExact | src/mem.rs:72-85 | a context is at most the maximum if and only if its exact cost is within the budget, it is within the trained context and fits a `u64` |
| MemFit.WithinBudget | src/mem.rs:72-85 | every context up to the maximum has its cache within the budget |
| MemFit.OneMoreCostsMore | src/mem.rs:72-85 | unless the trained context caps it, one token more exactly costs more than the budget |
| MemFit.OneMoreShowsExactly | src/mem.rs:48-85 | rounded to bytes, that shows for every budget if and only if a token costs a whole number of bytes or more than any budget |
| MemFit.MonotoneInBudget | src/mem.rs:72-85 | more budget never buys less context |
| MemFit.AntitoneInElement | src/mem.rs:64-85 | a smaller cache element never buys less context |
| MemFit.DifferenceExact | src/mem.rs:249-258 | the signed difference is the real one if and only if that fits 64 bits |
| MemFit.UsableExact | src/mem.rs:133-142 | usable memory is what is available and what the GPU holds less one GiB, or without a reading the GPU's pool |
| MemFit.EstimateExact | src/mem.rs:235-271 | where nothing saturates or wraps, the four numbers of the estimate are the exact ones |
| MemFit.OfferedContextFits | src/mem.rs:235-271 | whenever some context is offered, every context up to it is reported with non-negative headroom, even where differences wrap, and with the real one where they do not |
| MemFit.HugeWeightsWrap | src/mem.rs:249-258 | where the difference wraps, weights of nearly 2^64 bytes are reported as fitting ten bytes |
| NetbootImage.SealedVerifies | src/netboot_image.rs:474-538 | a freshly sealed image passes its own verification |
| NetbootImage.SealRecords | src/netboot_image.rs:474-538 | a sealed manifest records the build's own arguments, `init=` and two artifacts with their hashes, and the files are the build's |
| NetbootImage.SealOverExisting | src/netboot_image.rs:474-538 | under a taken id sealing changes nothing, and succeeds if and only if the manifest loads and records the same artifacts |
| NetbootImage.ArgsExact | src/netboot_image.rs:107-121 | the arguments are those of the first kernel line, after its image word |
| NetbootImage.InitExact | src/netboot_image.rs:126-136 | `init=` is that of the first such word, if it is a store path |
| NetbootImage.ScriptLines | src/netboot_image.rs:295-308 | the six lines of a served script, exactly |
| NetbootImage.ScriptCarriesCmdline | src/netboot_image.rs:107-121 | the served script reads back as the manifest's command line if and only if that is one non-empty line without blanks around it |
| NetbootImage.StepKeepsSealed | src/netboot_image.rs:263-274 | sealing, staging and edits that forge no manifest keep every manifest the product of one build |
| NetbootImage.ServedIsCoBuilt | src/netboot_image.rs:107-308 | over any run of seals, stages and edits that forge no manifest, every served script has the arguments and `init=` of one sealed build whose hashes match the kernel and initrd on disk |
| NetbootImage.SealedAreAsked | src/netboot_image.rs:474-538 | the builds of a run are exactly those it was asked to seal |
| NetbootImage.SealedThenServed | src/netboot_image.rs:263-538 | after any run, sealing a build under a free id and staging it ends with that build served |
| NetbootImage.StageThenLoad | src/netboot_image.rs:263-290 | a refused stage leaves the store alone; an accepted one is what the next load serves |
| NetbootImage.StageExact | src/netboot_image.rs:263-274 | staging succeeds if and only if the image loads and the pointer is written, and then the pointer holds the id |
| NetbootImage.LoadExact | src/netboot_image.rs:254-290 | whatever is in the store, a manifest is served if and only if the active file names an image whose manifest it is and whose files pair with it |
| NetbootImage.ImageRoot.SealBuild | src/netboot_image.rs:474-538 | a new image is sealed, an identical one reused, a different one or an unreadable manifest under the same id refused |
| NetbootImage.ImageRoot.Stage | src/netboot_image.rs:263-274 | the pointer moves only to an image that verifies, and otherwise nothing changes |
| NetbootImage.ImageRoot.Serve | src/netboot_image.rs:279-308 | the script served is that of the loaded manifest, and nothing is served otherwise |

## Left out

- The firewalld backend of the boot server, with its permanent and runtime rules.
- The text of `ufw` and `nft` listings, exports files and `systemctl` answers: the model reads them as sets, each read either complete or empty.
- Failing checkpoint and record writes, and a kill between a privileged call and its checkpoint: a checkpoint is one step with the change it records.
- A record that does not parse, a changed configuration or backend between runs, and other programs editing the host.
- The off-host reachability check after `up`, which changes nothing, and `enable --now` that enables but does not start: it is one step.
- BuildStore.InstallsAreLru: runs in which removing a version fails are excluded, because a version that stays is then installed without being in the ledger; `BuildStore.HistorySane` covers them.
- A crash inside a recursive removal, and durability below an atomic rename.
- The locks of the build store, its recipes and their validation, and the `rpc` binary report.
- Rollback's fallback order: the source takes the first other slug in byte order, the model any listing order.
- The backup copy that `stage` writes, failing reads of existing drop-ins, and `clear_dropin`.
- Flag adjustment before a swap (`adjust_flags`, `strip_mtp_flags`), cluster `down`, build parity and the active-cluster file.
- The waits between polls, and the detail text of outcomes.
- GGUF floats are kept as bits, text as bytes without lossy decoding; what is done with the metadata afterwards.
- Gate steps are atomic, as the source's mutex makes them; a worker that panics inside a load is not modelled.
- The zero-padded text of a timestamp: the model stops at its five numbers.
- Case folding beyond ASCII in `Text.Lower` (white space is the full Unicode set).
- The ssh options and target that precede the remote command, and everything about running it.
- Writing the template file and restarting after a de-brand.
- Floating-point rounding in the memory arithmetic (exact rationals here), and `u64` widths of the dimensions (any natural number here).
- SHA-256 is an arbitrary function of the file contents; nothing about collisions is claimed.
- Failing copies while sealing an image, and files changed between verification and serving.
- NetbootImage.ServedIsCoBuilt: edits that write a manifest are excluded, because a forged manifest can name any files and arguments; `NetbootImage.LoadedIsVerified` says what still holds then.
- Subprocesses, HTTP, ssh, nix, the command line, JSON, telemetry, benchmarks and the terminal interface.
