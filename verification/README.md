# Verified model of the Bot runtime's cores

This project models, in Dafny, the parts of the repository whose promises hold only over
whole runs, and proves those promises for every input, every run and every interleaving the
model allows. `dafny verify dfyconfig.toml` checks it.

**Plugins.** `MountGraph`, `Plugins`, `Resolution`, `KahnPass`, `CycleSearch`, `MountOrder`,
`MountReasons` and `MountOrderLaws` are `pluginMountOrderV1`: services resolved to providers,
the stable sweep order with exclusion, the search for cycles, why each Plugin fails, and what
the order promises. `PluginWorkerHost` is `mount`: refusals, artifacts and a health report
that may answer anything, and the survivors. `IsolateMount` is the mount inside the generated
index, `HookChain` its hook chain under one deadline, and `ModelEvents` the NDJSON framing of
model events, written and read.

**The Computer.** `LoginVault` is the ledger of kept sign-ins and `LoginVaultLaws` what any
history of it comes to; `ComputerRecords` is the durable intents, receipts and pending
command, `ComputerProtocol` the scheduled commands as a state machine in which the Bot may be
evicted between any two steps, `SignInDebt` the debt an Update or a Reset runs up, and
`CommandOutcomes` what a command achieves. `Demonstrations` is the recordings and their alarm.
`SnapshotReader`, `SnapshotLaws`, `BrowserActions`, `BrowserTask`, `BrowserTaskRun`,
`BrowserTaskReports` and `BrowserTaskLaws` are the browser task: the snapshot read by a stack
and what its controls say, the actions a page allows, the loop, its reports, and what every
run keeps. `Egress`, `EgressLaws`, `EgressAnswers` and `EgressHandler` are one exec call's
terminal egress, cut at its awaits. `ProcessStore` is the background-process records and their
status rule.

**Small cores.** `Base64Url` and `ConstantTime` (core/crypto.ts), `PromiseCache`, `Limiter`,
`PackageClosure` (app/user.ts), `BuildContract` (the build request codec and its paths) and
`BuildResponse` (the response codec). `Wrappers` and `Sequences` hold what they share.

Conventions. What the source calls and cannot see into is a port: a function of the call's
turn or of its arguments that may answer anything. Code the source runs as loops and mutable
objects is written as methods and classes proved against functions and predicates; laws over
runs are lemmas about those. A service, a URL's host and path, a parsed snapshot line and a
JSON value are taken as values already read.

## Findings

- Provider claims: with distinct Plugin ids, whether a member is refused depends on that
  member alone, and the refusal for a provider already taken is never given
  (`PluginWorkerHost.PluginWorkerHost.Refuse`). The code reserves a provider before its owner
  is known to mount, which is harmless for the same reason.
- Sign-in debt: the design says a machine that lacks the kept sign-ins is always owed them. A
  refusal that says the machine is untouched, answering the replay of an attempt whose first
  call landed before an eviction, settles the debt of a machine that was changed
  (`SignInDebt.RefusedReplayLosesDebt`). Over any run the debt is kept throughout if and only
  if no refusal settles, under its own time, a debt since which the machine was changed
  (`SignInDebt.DebtKeptExactly`); at such a refusal, with its own debt standing, the machine
  lacks the sign-ins exactly when an earlier call of the same command landed
  (`SignInDebt.OwnRefusalLacks`).
- Promise cache: a failure never brings an evicted key back, so after one the cache may keep
  fewer keys than its limit though more were asked for and have not failed
  (`PromiseCache.RoomLeft`); it keeps the recency list cut to the limit exactly as long as no
  kept key fails while that list is longer than the limit (`PromiseCache.WholeExactly`).
- Demonstrations: a start evicted between its record and the Computer's answer is taken for
  begun when the command comes again, though the Computer may never have been asked
  (`Demonstrations.EvictedStartHolds`). Over any run, every recording on the record is one the
  Computer agreed to exactly as long as no start is cut short so
  (`Demonstrations.AgreedExactly`).
- Build response: a copied input schema loses the fields named `__proto__`, since assigning
  to that name sets an object's prototype or does nothing (`BuildResponse.ProtoIsLost`). A
  response comes back from its encoding exactly when it is within bounds and no schema of it
  has such a field (`BuildResponse.EncodedComesBack`), and otherwise without them
  (`BuildResponse.EncodedLoses`).
- Build response: a view's id may have 128 characters by the pattern written for it, but the
  bound shared by every name refuses it past 64 (`BuildResponse.LongViewRefused`; such an id is
  in `BuildResponse.LongViewMatches`).
- Process records: `update` writes without looking at the cap
  (`ProcessStore.ComputerProcessStore.Update`); of a record just forgotten to make room, it
  takes a full store past it (`ProcessStore.UpdateOutgrows`). In a store already past its cap
  a record refused for the limit may still have forgotten a finished one.
- A promise cache whose limit is not positive keeps nothing. A limiter whose limit is not
  positive never starts a task.

## Model

| member | source | states |
|---|---|---|
| `MountGraph.LeastClosed` | frock-compose/plugin-worker-host.ts:680-707 | The nodes of a sweep order are inside every set closed under "all its providers are in": the order is the least such set, by its own definition of sweeps and places. |
| `MountGraph.OrderUnique` | frock-compose/plugin-worker-host.ts:680-707 | A graph has at most one mount order, so stability fixes the whole sequence and not only the set. |
| `KahnPass.Run` | frock-compose/plugin-worker-host.ts:680-707 | The sweeps end; what they place is the mount order of the graph, and what they exclude is exactly what was excluded before plus everything that reaches it, each with a failure. |
| `Resolution.UndisplacedHolds` | frock-compose/plugin-worker-host.ts:611-644 | A claimant none of whose claims came late holds every service it claims. |
| `Resolution.LateClaimDisplaced` | frock-compose/plugin-worker-host.ts:616-630 | Of two claims on one service the later claimant is always among the failed. |
| `Resolution.ResolveMember` | frock-compose/plugin-worker-host.ts:645-679 | A member survives resolution only with every consumed service held, at its own version unless the provider was already excluded, and its edges are exactly those providers; one whose services are all held at the right version survives. |
| `Resolution.SelectKeepsPlaces` | frock-compose/plugin-worker-host.ts:604-640 | Dropping members leaves the relative places of the rest as they were. |
| `CycleSearch.InCycle` | frock-compose/plugin-worker-host.ts:716-731 | The worklist search answers true exactly when the stalled Plugin reaches itself along dependency edges of the whole graph; it terminates. |
| `MountOrder.FailuresCover` | frock-compose/plugin-worker-host.ts:604-743 | Named failures are exactly the not-refused members that are not in the order: nobody is both, nobody is neither, no refused member is named again. |
| `MountOrder.PluginMountOrder` | frock-compose/plugin-worker-host.ts:604-743 | The order is the one mount order of the members not already refused; the failures are the displaced, the unresolved and the stalled, and each reason given means what it says: late to a service another holds, a service nobody lists, a provider at another version, a provider that did not mount, or a cycle through itself. |
| `MountReasons.FailuresExplained` | frock-compose/plugin-worker-host.ts:604-743 | From the listing and the refused alone: a service is provided by the first member not refused to offer it, by the first refused one where there is no other; "already provided" names the first offerer of a late claim, "nothing provides" a service no member lists, "version" the provider of an unrefused one at another version, "did not mount" a member one of whose providers is excluded or stalled, "in a cycle" one that reaches itself. |
| `MountReasons.NothingMeansNothing` | frock-compose/plugin-worker-host.ts:640-660 | "Nothing provides it" is said of a service only when no member of the whole list, refused or not, offers it. |
| `MountReasons.RefusedProviderNamed` | frock-compose/plugin-worker-host.ts:597-603 | A member not displaced whose services are all offered by someone, one of them by refused members alone, is told its provider did not mount, unless a service it consumes has a live provider at another version. |
| `MountOrderLaws.PlacedAreLeast` | frock-compose/plugin-worker-host.ts:680-707 | In terms of members: the placed ones are sound, closed under "all my providers are in", and inside every set so closed. |
| `MountOrderLaws.PlacedAfterProviders` | frock-compose/plugin-worker-host.ts:680-707 | Each provider of a placed member stands before it in the order. |
| `MountOrderLaws.RefusedChangeNoOrder` | frock-compose/plugin-worker-host.ts:604-666 | Running with members refused gives the same order, and fails the same other Plugins, as running on the list without them. |
| `MountOrderLaws.InOrderStays` | frock-compose/plugin-worker-host.ts:612-707 | A list already in dependency order with every need met is its own mount order. |
| `MountOrderLaws.PlacedClaimsApart` | frock-compose/plugin-worker-host.ts:611-640 | No two placed members claim one service. |
| `MountOrderLaws.OrderIsInOrder` | frock-compose/plugin-worker-host.ts:612-707 | The order, taken as a list, is in dependency order with every need met among its own members. |
| `MountOrderLaws.OrderIdempotent` | frock-compose/plugin-worker-host.ts:612-743 | Run again on its own order, the function returns that order and leaves nothing to fail. |
| `MountOrderLaws.StalledOnStalled` | frock-compose/plugin-worker-host.ts:708-715 | When the sweeps stall, every stalled Plugin has a stalled provider. |
| `PluginWorkerHost.PluginWorkerHost.Refusal` | frock-compose/plugin-worker-host.ts:770-799 | A member is refused exactly when its own descriptor or one of its own model providers is: who reserved what before does not bear on it. It is told the first provider that is another Plugin's or another artifact's; else that its descriptor is refused; else that a provider is not opened. |
| `PluginWorkerHost.PluginWorkerHost.Refuse` | frock-compose/plugin-worker-host.ts:756-807 | The refused are exactly the members not admitted, each named once as failed, with a reason that is true of it; the answer "provider taken" is never given when ids are distinct. |
| `PluginWorkerHost.WhollyVerifiedStep` | frock-compose/plugin-worker-host.ts:974-1001 | Verified with all transitive providers verified is the same as verified with every direct provider so. |
| `PluginWorkerHost.PluginWorkerHost.LoadArtifacts` | frock-compose/plugin-worker-host.ts:819-846 | The members kept are those whose artifact the store hands back, in mount order; the others are named as without an artifact. |
| `PluginWorkerHost.PluginWorkerHost.CheckHealth` | frock-compose/plugin-worker-host.ts:952-972 | The members kept are those the first matching line of the health report vouches for, in mount order; the others are named, as missing from the report exactly when no line is about them. |
| `PluginWorkerHost.DropOrphans` | frock-compose/plugin-worker-host.ts:974-1001 | Of the verified members exactly those wholly verified are kept, in mount order; the others are named with the first service they consume whose provider was not kept, and that provider. |
| `PluginWorkerHost.PluginWorkerHost.Mount` | frock-compose/plugin-worker-host.ts:753-1005 | For every `mount` that returns, mounted and failed are disjoint and together all members; mounted is the mount order restricted to the members verified with all transitive providers verified, whatever the store and the worker answer; it throws exactly when the worker does not report though an artifact could be loaded, in the phase that failed; every failure it names carries the reason that holds of it. |
| `PluginWorkerHost.MountedServesItsOwn` | frock-compose/plugin-worker-host.ts:756-799 | Every mounted member has a sound descriptor, and serves a model provider only where the deployment's last claim on it names that very member at that very artifact. |
| `PluginWorkerHost.OpenedAre` | frock-compose/plugin-worker-host.ts:763-769 | Every provider the deployment claims is opened. |
| `IsolateMount.ProviderIs` | frock-compose/plugin-worker-wrapper.ts:1282-1313 | What a Plugin of the index is handed for a service is what the last earlier mounted Plugin declares, if one does. |
| `IsolateMount.MountAll` | frock-compose/plugin-worker-wrapper.ts:1276-1320 | Inside the isolate a Plugin mounts exactly when its module declares itself and all it consumes is provided by earlier mounted ones, and it is handed for each consumed service, and no other, what its provider declared. |
| `IsolateMount.AllMountInOrder` | frock-compose/plugin-worker-wrapper.ts:1270-1320 | Every Plugin of an identity mounts if and only if all modules declare themselves and the identity is in dependency order, which is what the mount order promises. |
| `HookChain.RunHookChain` | frock-compose/plugin-worker-wrapper.ts:785-826 | The loop computes the chain as it is stated Plugin after Plugin: value left, failures named, time used. |
| `HookChain.ChainIsFold` | frock-compose/plugin-worker-wrapper.ts:797-826 | The value the chain ends with is the left fold of the Plugins that returned one, each applied to what the one before left; failed, skipped and silent Plugins leave no trace in it. |
| `HookChain.EveryPluginAccounted` | frock-compose/plugin-worker-wrapper.ts:794-821 | Every enabled, mounted Plugin that hooks the event answered within its time or is named in the failures. |
| `HookChain.OnlyCalledFail` | frock-compose/plugin-worker-wrapper.ts:794-821 | Only a Plugin that was called for and failed is named. |
| `HookChain.NotificationsReplaceNothing` | frock-compose/plugin-worker-wrapper.ts:808-816 | A notification ends with no replacement whatever its handlers return. |
| `HookChain.WithinDeadline` | frock-compose/plugin-worker-wrapper.ts:776-805 | If time passes only in handlers, the chain ends within its deadline, handlers that never settle included. |
| `HookChain.NothingRunsLate` | frock-compose/plugin-worker-wrapper.ts:797-804 | Once less than 25 ms is left no later Plugin runs: each one called for is named as out of time, and no time passes. |
| `HookChain.TurnsTold` | frock-compose/plugin-worker-wrapper.ts:785-826 | Each Plugin's turn by when its handler settles: not asked, nothing changes; under 25 ms left, out of time; over 60 seconds, out of range; settled in time, counted as returned, silent, raised or unable to replace; otherwise timed out, with the whole time used. What is named stays named. |
| `ModelEvents.ReadModelEvents` | frock-compose/plugin-worker-wrapper.ts:396-418 | However the text is cut into chunks, what is yielded, and the line reading stops at, is what splitting the whole text at newlines gives. |
| `ModelEvents.ReadingTold` | frock-compose/plugin-worker-wrapper.ts:396-418 | Reading fails if and only if some line that is not blank does not parse, and the events are those of the lines before the first such line, in order. |
| `ModelEvents.SplitIs` | frock-compose/plugin-worker-wrapper.ts:396-412 | The lines hold no newline and, newlines between them, are the text again. |
| `ModelEvents.TrimIs` | frock-compose/plugin-worker-wrapper.ts:401-414 | A trim takes exactly the white space off both ends; what is blank becomes empty, and nothing else does. |
| `ModelEvents.FramedSplits` | frock-compose/plugin-worker-wrapper.ts:651-658 | Framed newline-free lines split back into exactly those lines and an empty rest. |
| `ModelEvents.FramedReadsBack` | frock-compose/plugin-worker-wrapper.ts:396-418 | Framed events whose texts hold no raw newline read back as those events, in order and all of them. |
| `ModelEvents.ModelEventStream.OnNext` | frock-compose/plugin-worker-wrapper.ts:646-664 | One pull enqueues one framed event, or ends the stream once: after an end, a failure, a silence or a cancel nothing more is enqueued, and a timer runs exactly while the stream is open. |
| `ModelEvents.ModelEventStream.ReadsBack` | frock-compose/plugin-worker-wrapper.ts:613-682 | Whatever the transport makes of the bytes enqueued, the reader yields exactly the events sent. |
| `ComputerRecords.ComputerBotStore.Admit` | computer/bot.ts:833-982 | Admission of a command, in one transaction, as the source branches: replay, collision, joined, busy, admitted with or without a pending record. |
| `ComputerRecords.AdmitKeeps` | computer/bot.ts:833-982 | Admission keeps every receipt answering an intent and the scheduled unanswered intents exactly the pending one; intents and receipts already written stay; joined and busy leave no intent; a replay or a collision changes nothing. |
| `ComputerRecords.AnsweredAs` | computer/bot.ts:833-982 | Which answer a command gets: its receipt or its admission when the id is taken by the same command, a collision when by another; beside another pending command a new connect joins it and a new Update or Reset is busy, and nothing else is either. |
| `ComputerRecords.DueAfter` | computer/bot.ts:833-982 | When the pending command is due after an admission: a new one a second later; one already pending as it was, unless it is overdue and was asked for or joined: then a second later too. |
| `ComputerRecords.SettledOnce` | computer/bot.ts:999-1055 | A settled command keeps its first receipt, and under another fingerprint is a collision. |
| `ComputerProtocol.ReuseChangesNothing` | computer/bot.ts:859-879 | Once a command id is taken, asking under it with another fingerprint changes nothing, however much later in a run. |
| `ComputerRecords.SettleKeeps` | computer/bot.ts:999-1055 | Settling writes one receipt for its own intent, in the transaction that removes the pending record; settling again changes nothing. |
| `ComputerRecords.PutOffKeeps` | computer/bot.ts:1283-1331 | Deferring or arming the alarm moves only when the pending command is due. |
| `ComputerProtocol.StepKeepsAll` | computer/bot.ts:1063-1353 | Every step, an eviction at any await included, keeps the records consistent, what was written, and the pending record's command id, User and `machineAt`, until the transaction that writes its receipt. |
| `ComputerProtocol.OwedIsPending` | computer/bot.ts:833-1055 | In every state reachable from an empty store the scheduled intents with no receipt are exactly the one pending command, none when nothing is pending. |
| `ComputerProtocol.MachineCallsOnce` | computer/bot.ts:2130-2234 | Over any run, two machine calls are of one command exactly when they carry one effect id, and no call of a command follows its recorded `machineAt`. |
| `ComputerProtocol.CallsAsAsked` | computer/bot.ts:2130-2234 | Over any run, a machine call carries its own command, its own Bot and that command's step: a Reset's resets, an Update's replaces. |
| `ComputerProtocol.DeletionOutranks` | computer/upkeep.ts:98-149 | With a vault, no machine call is made past a deletion recorded before the debt, and no new machine opened past one recorded before the second check. |
| `CommandOutcomes.WellAnsweredAchieves` | computer/bot.ts:2130-2266 | A run that starts while the ledger owes what the machine lacks, its command not outranked by a deletion: once sixteen awaited calls have answered as they should, whatever else was asked meanwhile, it has ended applied, with a viewer open, nothing owed and the machine holding whatever is kept. |
| `CommandOutcomes.DebtOutlivesRestore` | computer/upkeep.ts:126-149 | Past the second fence, a debt standing over something kept stays owed exactly when the ask, the read or the restore was lost or the settling took no effect, and the machine has the sign-ins back exactly when the restore took effect. |
| `CommandOutcomes.NothingToRestore` | computer/upkeep.ts:132-137 | With nothing kept the debt is settled without a restore. |
| `CommandOutcomes.RefusalSettles` | computer/bot.ts:2196-2224 | A refused command that owes its own debt settles it exactly when the settling takes effect; an Update that found no machine never does, and stays owed. |
| `CommandOutcomes.CaptureKept` | computer/upkeep.ts:98-121 | The capture taken before the machine changes is kept exactly when keeping it took effect, nothing was owed, and it is newer than what was kept and than any deletion; the debt is recorded next whatever became of it. |
| `CommandOutcomes.DebtRecorded` | computer/bot.ts:2172-2179 | The debt is recorded under the command's own time when none stands and no deletion outranks it, and the command goes on only when it was told so and none does. |
| `CommandOutcomes.AppliedWasDone` | computer/bot.ts:2130-2266 | Over any run, an Update or a Reset is answered applied only after a machine call of its own was issued, the change recorded and the new machine opened. |
| `LoginVault.ComputerLoginsLedger.Keep` | app/shell/computer-logins.ts:178-207 | A capture is kept only while nothing is owed, nothing newer is kept and the Computer was not deleted since; otherwise the ledger stays as it was. |
| `LoginVault.ComputerLoginsLedger.Owe` | app/shell/computer-logins.ts:209-220 | A debt is recorded unless the Computer was deleted since, and an earlier debt keeps its time. |
| `LoginVault.ComputerLoginsLedger.Settle` | app/shell/computer-logins.ts:222-236 | Only the debt of that time is settled. |
| `LoginVault.ComputerLoginsLedger.Forget` | app/shell/computer-logins.ts:238-247 | A deletion drops what is kept and owed and is remembered by its latest time. |
| `LoginVaultLaws.KeptTold` | app/shell/computer-logins.ts:178-207 | Over any asks of the ledger, what is kept is the capture that came while nothing was owed, newer than what was kept and than any deletion, with no deletion and no newer capture accepted since; and nothing else is. |
| `LoginVaultLaws.DebtTold` | app/shell/computer-logins.ts:209-236 | Over any asks, a debt stands exactly when it was recorded while none stood and no deletion outranked it, and neither its own settlement nor a deletion came since. |
| `LoginVaultLaws.DeletionTold` | app/shell/computer-logins.ts:238-247 | Over any asks, the deletion remembered is the latest. |
| `SignInDebt.StepKeepsDebt` | computer/bot.ts:2156-2224 | One step keeps a machine that lacks the kept sign-ins owed them exactly when it is not a refusal that settles its own debt over such a machine. |
| `SignInDebt.DebtKeptExactly` | computer/bot.ts:2130-2266 | Over any run, with any evictions and deletions, a machine that lacks the kept sign-ins is owed them at every point if and only if no refused command settles, under its own time, a debt since which the machine was changed. |
| `SignInDebt.LackingNeverKept` | computer/upkeep.ts:98-121 | So, without such a settling, no capture of such a machine changes what is kept. |
| `SignInDebt.OwnRefusalLacks` | computer/bot.ts:2196-2224 | Where a refused command waits to settle the debt its own run recorded, the machine lacks the sign-ins exactly when some are kept and an earlier call of this very command landed since. |
| `SignInDebt.RefusedReplayLosesDebt` | computer/bot.ts:2196-2224 | A concrete run: a machine call lands, the Bot is evicted, its replay is refused as if untouched, and the debt of a machine that lacks the sign-ins is gone. |
| `Demonstrations.RoomMade` | computer/bot.ts:1809-1852 | Before a recording starts, what stays is at most seven demonstrations, all of them sent. |
| `Demonstrations.StartKeeps` | computer/bot.ts:1829-1852 | After a start that reaches the record, an earlier demonstration is still there, unchanged and in its place among the rest, if and only if it was sent and fewer than seven sent ones come after it. |
| `Demonstrations.ComputerDemonstrations.Start` | computer/bot.ts:1809-1876 | Starting replaces exactly the unsent and the oldest sent beyond the limit; the new recording stays unless the Computer refused, an eviction before its answer included; it is applied when the id is on the record already or the Computer agreed. |
| `Demonstrations.ComputerDemonstrations.Stop` | computer/bot.ts:1878-1896 | Stopping collects the one recording; it is applied when there was none or something was kept. |
| `Demonstrations.ComputerDemonstrations.Discard` | computer/bot.ts:1898-1920 | Discarding leaves nothing unsent, or the record as it was when the files would not go. |
| `Demonstrations.ComputerDemonstrations.Delete` | computer/bot.ts:1940-1953 | Deleting takes a sent demonstration off the record, and touches no other. |
| `Demonstrations.StaysBounded` | computer/bot.ts:1728-2000 | Over any commands, alarms and evictions there are at most eight demonstrations, ids distinct, at most one unsent, and no recording past its attempts. |
| `Demonstrations.AgreedExactly` | computer/bot.ts:1829-1876 | Over any commands, alarms and evictions, every recording on the record is at every point one the Computer agreed to if and only if no start is cut short by an eviction once it is recorded. |
| `Demonstrations.EvictedStartHolds` | computer/bot.ts:1829-1876 | A start so cut short is on the record, and is taken for begun when it comes again. |
| `Demonstrations.ComputerDemonstrations.Collect` | computer/bot.ts:1747-1800 | Collecting turns the recording into what the Computer and the store made of it, or leaves it when either refused. |
| `Demonstrations.ComputerDemonstrations.Forget` | computer/bot.ts:1728-1739 | Forgetting removes the one record, only when its files are gone. |
| `Demonstrations.ComputerDemonstrations.Settle` | computer/bot.ts:1956-2000 | The alarm's loop does to each demonstration what is stated of it alone, up to an eviction; past the last one no deadline is at or before its time. |
| `Demonstrations.NoDeadlinePast` | computer/bot.ts:706-723 | After an alarm, whatever the outside answered, no remaining deadline is at or before its time. |
| `Demonstrations.AlarmOne` | computer/bot.ts:1956-2000 | What an alarm does to one demonstration does not depend on the others. |
| `Demonstrations.AlarmTold` | computer/bot.ts:1956-2000 | By the numbers: when each demonstration is due, and what the alarm then makes of it: kept a week when collected and stored, gone when empty or deleted or at the third failure, tried again in five minutes otherwise. |
| `Demonstrations.MarkSentTold` | computer/bot.ts:1927-1938 | What is sent are the kept demonstrations one of whose uploads was taken; nothing else of the record changes. |
| `Demonstrations.ThirdRefusalLetsGo` | computer/bot.ts:1976-2000 | Over any run of alarms that never collect a recording it stays, with one more attempt for each alarm that found it due, until the third such alarm, and is gone after it. |
| `SnapshotReader.BrowserTaskControls` | computer/browser-task.ts:129-212 | The stack walk reads exactly the control lines, in page order, each with the innermost named region that encloses it by indentation, its select's own options and last selected one, and its number among its like. |
| `SnapshotLaws.ControlsTold` | computer/browser-task.ts:129-212 | Line by line: the controls are the named lines of a control's role that are no option of a native select, in page order, each with its role, name and states, its own value or its last selected option, its options, the innermost region known by name or by the words directly in it, else the last heading, in 120 characters, and its number and count among its like. |
| `SnapshotReader.NumbersTellApart` | computer/browser-task.ts:197-206 | Of two controls of one role and name the later has the larger number, below their common count. |
| `SnapshotReader.PoppedAround` | computer/browser-task.ts:142-142 | Popping what is not shallower leaves exactly the lines that enclose the next one. |
| `BrowserActions.AddControl` | computer/browser-task.ts:240-299 | One control adds every operation it supports and no other, keeping what was offered before. |
| `BrowserActions.BrowserTaskActions` | computer/browser-task.ts:233-300 | The actions listed are exactly the operations enabled controls support, typed values taken from the browser task's, keyed by place. |
| `BrowserActions.OffersExactly` | computer/browser-task.ts:240-299 | Read off the control: the options of a select but the one shown, the values a text field does not hold, with Enter in a search box, and a click on anything else but a radio already chosen; nothing where it is disabled. |
| `BrowserActions.ToldApart` | computer/browser-task.ts:247-297 | No two operations one control offers are described alike. |
| `BrowserActions.DescribesState` | computer/browser-task.ts:247-297 | A description names the control, its region where that is another word, and what taking the action would change. |
| `BrowserTask.Top` | computer/browser-task.ts:606-612 | The reduce picks the first of the likeliest actions. |
| `BrowserTask.MoveTaken` | computer/browser-task.ts:577-634 | An action is taken if and only if the page is ready, the goal is not judged reached, some offered action is likely enough (a tenth beside a stop, a fifth otherwise), and past a stop only twice; it is one of the likeliest. |
| `BrowserTaskReports.MoveTold` | computer/browser-task.ts:577-634 | What one answer leads to, by its chances: a page showing something else at 0.7, the goal at 0.6, a stop at 0.7 explored at 0.1 at most twice, an action at 0.2, and what is reported otherwise. |
| `BrowserTaskReports.RegionsTold` | computer/browser-task.ts:552-555 | Each region is offered once, in the order the actions reach it, an action in none counting as the page's. |
| `BrowserTaskReports.ChosenTold` | computer/browser-task.ts:555-571 | A region is chosen by its number, from 1; another number chooses none. |
| `BrowserTaskReports.WithinTold` | computer/browser-task.ts:570-574 | What is asked about next are the actions of the region chosen, in their order. |
| `BrowserTask.AskJev` | computer/browser-task.ts:533-576 | One question, or a region first when there are more than 80 actions; what is offered then is the chosen region's, and a silent or broken Jev ends it. |
| `BrowserTask.Examine` | computer/browser-task.ts:636-659 | A click that may commit is reviewed when its words or Jev say so, an unanswered Jev included; other actions ask nothing. |
| `BrowserTask.TakeStep` | computer/browser-task.ts:516-681 | A step's calls tell how it ended: nothing is called beyond what its answers and its review let through, and a step broken off made the calls up to the port that threw. |
| `BrowserTaskRun.RunBrowserTask` | computer/browser-task.ts:497-682 | A whole run: each step follows from its page, the steps before it and its own calls; the history told to Jev is what was done and whether the page then stayed as it was; the report's steps, page, decisions and ending are those of the run; at most the allowed steps, never over 40. |
| `BrowserTaskLaws.EveryActWarranted` | computer/browser-task.ts:636-681 | Every act of a run is of an enabled control of the page just read that supports it, with text from the browser task's values, picked by Jev in that step as a likeliest and likely enough action, and, if it may commit, after an undenied review of that page in that step or a judgement that it commits nothing; it is the step's only act and last call. |
| `BrowserTaskLaws.UnreviewedMeansUnlikely` | computer/browser-task.ts:636-659 | Over any run, an act that may commit and had no undenied review before it in its step followed Jev's answer, in that step, that it commits with a chance below 0.5. |
| `BrowserTaskLaws.EveryCommitJudged` | computer/browser-task.ts:636-659 | Over any run, whenever a step asks Jev whether something commits or has it reviewed, that is the click the step settled on, examined so: words that commit are reviewed at once; otherwise Jev is asked, and it is reviewed exactly when Jev does not answer with a chance below 0.5, a missing answer included. |
| `BrowserTaskLaws.StepBounds` | computer/browser-task.ts:506-681 | A step makes at most one act and three Jev requests, and every step but the last made its act. |
| `BrowserTaskReports.ReportTold` | computer/browser-task.ts:506-530 | The report of a finished run: the page last read, one line for each step that acted with whether it failed and one for an approval awaited, as many decisions as questions asked, the outcome of its ending, and the step limit at the steps asked for, 20 when none, within 1 and 40. |
| `BrowserTaskLaws.NeverTwiceRunning` | computer/browser-task.ts:661-667 | No action is done on the same snapshot twice in a row. |
| `BrowserTaskLaws.ExploresTwiceAtMost` | computer/browser-task.ts:615-626 | A run explores past a stop at most twice. |
| `BrowserTaskLaws.NoResponseMeans` | computer/browser-task.ts:661-667 | "The page did not respond" is said only when the step before did this very action on this very snapshot. |
| `EgressHandler.Handler.Take` | computer/egress.ts:421-464 | A request up to its first await takes its place as stated: answered at once, awaiting a permit, a shared read review, a write of its own, or an earlier same write. |
| `EgressHandler.Handler.OnDigest` | computer/egress.ts:355-365 | A review takes the id of its content and the count of exact repeats so far. |
| `EgressHandler.Handler.OnReviewed` | computer/egress.ts:442-463 | Only a review decided with no refusal sends its request. |
| `EgressHandler.Handler.OnReply` | computer/egress.ts:540-566 | A reply answers its request as stated; one that is lost leaves a write unconfirmed and a read not reached. |
| `EgressHandler.Door.Close` | computer/egress.ts:582-588 | The cleanup of one opening never closes a later one under its nonce. |
| `EgressHandler.Door.Answerer` | computer/egress.ts:593-611 | Only a call open now, of the same object and not expired, may answer. |
| `EgressLaws.StepKeeps` | computer/egress.ts:408-566 | Every step of any request, at any point of any other, keeps the invariant of promises, maps and reviews. |
| `EgressLaws.WritesSentOnce` | computer/egress.ts:454-463 | Under any interleaving nothing is sent twice, and of requests with one method, URL and body that write at most one is sent. |
| `EgressLaws.RepeatsShareOneAnswer` | computer/egress.ts:454-463 | All permitted repeats of one write that are answered have one answer. |
| `EgressLaws.SendsAreReviewed` | computer/egress.ts:442-463 | Whatever was sent had a completed, undenied review: a write its own, of exactly that account, method, URL and body; a read one of its method and path. Without supervision nothing is sent. |
| `EgressLaws.SendFollowsReview` | computer/egress.ts:442-463 | Every send of a run was made by one of its events, which found the review its request awaits decided with no refusal. |
| `EgressAnswers.AnswerEarned` | computer/egress.ts:408-566 | Over any run and interleaving, a request that is no repeat has an answer if and only if an event of the run earned it that answer: a refusal by its permit or its own review, a response by the reply that carried it, a loss by a reply lost. |
| `EgressAnswers.TwinEarned` | computer/egress.ts:454-463 | A repeat of a write that is answered has the answer that the write of the same method, URL and body it follows earned. |
| `EgressAnswers.RulingEarned` | computer/egress.ts:442-453 | Under supervision a review stands ruled, and so, if and only if an event of the run ruled it so; without supervision every review is refused as unsupervised. |
| `EgressAnswers.LostMeans` | computer/egress.ts:554-565 | "Could not be reached" is told only to a request that reads; a write that was sent and answered without a response, and each repeat of it, is told it could not be confirmed. |
| `EgressLaws.ReviewIdsDistinct` | computer/egress.ts:355-365 | No two reviews share an id, and an id names its content's digest. |
| `EgressLaws.IdsAreCounted` | computer/egress.ts:355-365 | An id's number is how many reviews of its digest came before: every lower number, from zero on, is another review's. |
| `EgressLaws.NoneStuck` | computer/egress.ts:408-464 | Of a request not yet answered a step can run, its own or its review's, or, when it follows a write not yet answered, a step of that write: none waits on nothing. |
| `EgressLaws.SettledStays` | computer/egress.ts:408-566 | Answers, verdicts, review ids and the place of each request are final. |
| `Base64Url.DecodeEncode` | core/crypto.ts:35-72 | Decoding inverts encoding on every byte string (sections 4 and 5 of RFC 4648). |
| `Base64Url.DecodeAccepts` | core/crypto.ts:51-72 | What is accepted is exactly the texts in the URL alphabet, so without padding, of a length not one past whole groups, whose left-over bits are zero (section 3.5 of RFC 4648). |
| `Base64Url.AcceptsEncodings` | core/crypto.ts:51-72 | What is accepted is exactly what the encoder writes. |
| `ConstantTime.ConstantTimeEquals` | core/crypto.ts:75-84 | The accumulated difference is zero exactly when the byte strings are equal. |
| `PromiseCache.Cache.Ask` | core/promise-cache.ts:6-25 | What is returned is the latest load of the key: the one held on a hit, a new one on a miss; the keys held are what the asks and failures so far leave. |
| `PromiseCache.Cache.OnFailure` | core/promise-cache.ts:26-29 | A failure removes its own entry while it is the one held; the failure of a load that a later one replaced leaves no trace. |
| `PromiseCache.RecencyIs` | core/promise-cache.ts:12-29 | The recency list is exactly the keys last asked for and not failed since, each once, in the order of those asks. |
| `PromiseCache.KeepsNewest` | core/promise-cache.ts:12-29 | Over any asks and failures and any limit, the keys kept are the newest of the recency list, and no more than the limit. |
| `PromiseCache.WholeExactly` | core/promise-cache.ts:12-29 | The keys kept are the recency list cut to the limit all along a run if and only if no kept key ever fails while the list is longer than the limit. |
| `PromiseCache.RoomLeft` | core/promise-cache.ts:20-29 | A concrete failure after an eviction leaves fewer keys than the limit allows. |
| `Limiter.ConcurrencyLimiter.Acquire` | core/concurrency.ts:29-49 | A task takes a slot or waits last; never more than the limit run, and nobody waits while a slot is free. |
| `Limiter.ConcurrencyLimiter.Release` | core/concurrency.ts:43-49 | A freed slot goes to the first waiting task, so slots go in the order tasks came. |
| `ProcessStore.ComputerProcessStore.Record` | computer/process-store.ts:42-70 | Over the first 101 keys listed, whatever the store holds: a full listing without the id makes room; the limit is refused exactly when room is still lacking; the store ends within its cap or no larger than it was, and within the cap a refusal changes nothing. |
| `ProcessStore.ComputerProcessStore.Prune` | computer/process-store.ts:80-106 | What goes are the oldest finished records listed, those the codec refuses before any and the incoming one never, just enough to bring the listing under the cap or all there are. |
| `ProcessStore.RoomIsOne` | computer/process-store.ts:80-106 | Which records go is settled by what is listed: no other set makes room so. |
| `ProcessStore.ComputerProcessStore.Update` | computer/process-store.ts:126-129 | After an update the store is within its cap if and only if it had room, or was full and held the record. |
| `ProcessStore.UpdateOutgrows` | computer/process-store.ts:126-129 | An update of a record that making room has just forgotten takes a full store past its cap. |
| `ProcessStore.LiveRowsStay` | computer/process-store.ts:73-79 | Records starting or running outlast any making of room, and none goes while fewer than a hundred are listed. |
| `ProcessStore.OldestGo` | computer/process-store.ts:80-106 | Of the rows that might go, one the codec refuses goes before any other, then the earliest started, then the first listed. |
| `ProcessStore.RoomLacks` | computer/process-store.ts:80-106 | Where a listing cannot be brought below a hundred, every row left in it but the incoming one is starting or running. |
| `ProcessStore.StatusOverChecks` | computer/process-records.ts:247-278 | Over any checks of a process: a record already exited stays as it is; otherwise exited is final with the first exit code any reported, and running is said only of the launching generation by a check that found it alive; never starting again. |
| `PackageClosure.FoundationDefaultPackageIds` | app/user.ts:168-190 | The walk over the growing set ends with the least set that holds the seeded Packages and every dependency the catalog knows, each once. |
| `PackageClosure.ClosedTold` | app/user.ts:168-190 | Being closed, by the catalog alone: every Package enabled by default, with a connection or with a capability is in, and with a Package everything its own entry depends on that the catalog lists. |
| `BuildContract.DecodeFiles` | applets/build-contract.ts:355-382 | The loop over entries decodes them as stated entry by entry, with the first fault's code. |
| `BuildContract.PathAccepted` | applets/build-contract.ts:339-353 | A path is let through if and only if it is one to 256 plain characters whose segments are neither empty nor dots. |
| `BuildContract.PathsStayInside` | applets/build-contract.ts:334-353 | A path let through resolves strictly inside the directory it is resolved in, and two resolve alike only when equal. |
| `BuildContract.FilesAccepted` | applets/build-contract.ts:355-382 | The files accepted are exactly the encodings of one to 64 fine files with no path twice and the total within bounds. |
| `BuildContract.RequestCodec` | applets/build-contract.ts:384-430 | Decoding yields a request if and only if the input is exactly that request's encoding and the request is within the protocol's bounds: strict both ways. |
| `BuildContract.RequestWithin` | applets/build-contract.ts:334-430 | The same by the protocol's numbers: version 1; an effect id of 1 to 200 letters, digits and marks; a Plugin id of 1 to 64; one of two modes; 1 to 64 files, each path within 256 printable characters, each text within half a mebibyte and all within one. |
| `BuildContract.FilesOverLimit` | applets/build-contract.ts:339-382 | Files are refused as over a limit exactly when there are more than 64 entries or the first fault is an entry of the right shape whose path, text or sum is too much; every other fault is an invalid request. |
| `BuildContract.RequestOverLimit` | applets/build-contract.ts:384-430 | A request is refused as over a limit exactly when, all before it in order, an id is too long or its files are over theirs. |
| `BuildResponse.CopiedIs` | applets/build-contract.ts:530-556 | A JSON value is refused if and only if a part, a lost one included, is nested past sixteen or has more than 256 entries; it is copied as it is if and only if it is within those bounds and no object in it has a field `__proto__`; otherwise it is copied without those fields. |
| `BuildResponse.ManifestReads` | applets/build-contract.ts:610-732 | A manifest decodes if and only if, with its input schemas copied and the lists an older build leaves out put in, it is exactly the encoding of a manifest within bounds whose schemas name no `__proto__`. |
| `BuildResponse.ResponseCodec` | applets/build-contract.ts:756-848 | A response decodes, checked, built or failed, if and only if, with its schemas copied and those lists put in, it is exactly the encoding of a response within bounds whose schemas name no `__proto__`, its device modules one by one those the manifest declares. |
| `BuildResponse.EncodedComesBack` | applets/build-contract.ts:756-848 | What is encoded decodes to itself if and only if it is within bounds and its schemas name no `__proto__`. |
| `BuildResponse.EncodedLoses` | applets/build-contract.ts:542-556 | What is otherwise within bounds decodes to itself without the fields `__proto__` of its schemas. |
| `BuildResponse.ProtoIsLost` | applets/build-contract.ts:551-554 | A concrete build whose one schema is an empty object under `__proto__` comes back with an empty schema. |
| `BuildResponse.LongViewRefused` | applets/build-contract.ts:592-607 | A manifest that names a view by a surface id longer than 64 characters never decodes, though its pattern lets 128 through. |

## Left out

- SignInDebt.DebtKeptExactly: assumes that while a command drives the Computer no other capture of it is kept.
- Demonstrations.StaysBounded: commands and alarms are taken one at a time; two interleaved starts are not modelled, and each call reads one clock value.
- ComputerProtocol.StepKeepsAll: an intent and its pending record are read and written in one step each, with one clock value a transaction; an evicted machine call takes effect, or does not, at the eviction; a second Bot opening the Computer during an Update is not modelled, and progress and provider-phase records are left out.
- Base64Url.DecodeEncode: the platform's `btoa` and `atob` are modelled from their standard, not taken from the repository.
- ConstantTime.ConstantTimeEquals: compares byte strings; that UTF-8 writes unpaired surrogates alike, so that such strings compare equal, is left out, as is timing itself.
- HookChain.WithinDeadline: time passes only in handlers; a handler past its deadline goes on unobserved.
- ModelEvents.ReadModelEvents: chunks are text; decoding bytes that are cut inside a character is left out.
- PromiseCache.Cache.Ask: one limit for all calls on a cache, and a load that throws before it returns a promise is left out.
- SnapshotReader.BrowserTaskControls: lines come parsed, with whole indentation depths; the regular expressions and unquoting that parse them are left out.
- BrowserTask.AskJev: page text, field states and labels in the questions are left out; the actions offered, the regions and the history told are kept.
- BrowserTask.TakeStep: probabilities are exact numbers, and the words that flag a commit are any predicate.
- EgressHandler.Handler.Take: headers, endpoints, the review's shown body and whether a GraphQL text reads are left out; reading is any predicate of the request.
- BuildResponse.ResponseCodec: numbers are integers, and which of its two codes a refusal carries is left out; so are the prototype that a field `__proto__` gives a copied schema, and the problem response.
- Cryptography: hashes and signed tokens are functions or are left out; nonces are given.
- Composition of one exec call's `LIVE` entry with a token's verification: only the door itself is modelled.
- Message and error wording, progress labels, and the projections of computer/protocol.ts beyond a command's fingerprint.
- Bots' viewer sessions, checkpoints, frames, capture scripts and return pages; the wiring of app/ and the scripts directory.
