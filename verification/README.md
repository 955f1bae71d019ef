# Verified model of the mpv-targets daemon and client

`mpv-targetsd` supervises named mpv players and publishes their state to any
number of clients; the client library rebuilds that state from one snapshot and
a stream of field-level changes. This project models the parts of the two
programs whose correctness depends on several functions at once, and proves
what they are for. The constants, error conditions and edge cases are those of
the Rust code.

## What is modelled

- **One daemon as a state machine** (`Machine`). The state is the configuration
  list, the map of runtime targets, the persisted file, the target directories,
  the mutation lock with the local state of its holder, and the broadcast. Each
  label is one atomic step of the source: a critical section under the state
  lock, a file system action of the mutation lock's holder, or the sending of an
  event. A label that is not enabled does nothing, so every sequence of labels is
  a run and every interleaving is covered. The outcome of IPC, process launches
  and file system calls is part of the label. `Runtime` holds the edits the
  critical sections make of one target, `Observed` the normalisation and storing
  of what mpv reports, `Delta` and `Receiver` the client's separately written
  decoder, `HealthReport` the health summary, `Ordering` the iteration order of
  the sorted map.
- **What runs guarantee.** `Agreement` proves that list, runtime map, file and
  directories agree over every interleaving, and what a failed operation leaves
  behind. `Discipline` ties revisions and events to visible changes. `Replica`
  proves that a client holds exactly the daemon's state when events leave at
  once. `Divergence` lets the three emitters that send after unlocking send late
  and in any order, and proves that a client is then never silently wrong unless
  a late event outlives its target's name; `LateEvents` drops that condition and
  says exactly which steps harm a client. `Convergence` says exactly who stays
  connected, and that a client still connected when nothing waits holds the
  daemon's state. `Launch` accounts for launches and characterises exactly the
  steps that break the accounting; `Stranded` does the same for targets that are
  stopped and yet online.
- **The supervisor object** (`Supervision`). A class whose methods update the
  fields in place, run one at a time. Each method records the steps of the
  machine it amounts to, so every theorem about runs holds of the object, and
  its own contract states the lifecycle promises.
- **The client object and its connection** (`Client`), and **request
  correlation** (`Correlation`): the id counter, the pending map, the server's
  task pool that answers in any order, timeouts, and the end of the connection
  with its flag, drain and vanishing queue, all interleaving freely.
- **One server connection** (`Server`): the snapshot, then events and responses
  as they come, until something ends it; joined to the client's connection it
  gives the end-to-end statement of replication.
- **Parsers and printers**: the options of `add` with their grammar
  (`AddOptions`), the daemon URL and its parser (`Url`), the text of IPv4 and
  IPv6 addresses and what it says (`Net`, `Notation`), cutting and joining of
  texts (`Text`), the saved playlist (`Playlist`), the recovery delays
  (`Backoff`), the configuration validator with the names, channels and paths it
  accepts (`Config`, `Protocol`, `Paths`), and the edits of the target list
  (`ListEdits`).
- **What values mean.** `Observed` says, property by property and JSON value by
  JSON value, what the daemon stores of what mpv reports; `Wire` says the same of
  what the client reads from a change object. Both are stated on the names and
  values themselves and do not mention the code that gets there.

## What turned out not to hold

Where a plausible claim is false of the code, the code is modelled as it is, the
exact condition is proved for all inputs, and a failing input is given.

- *A connected client is never wrong.* It becomes wrong exactly by the steps that
  send it an event that carries the next revision of the record it holds and lands
  on a record its target of today never had (`LateEvents.FaithfulExactly`,
  `LateEvents.LateEventVerdict`). Every configuration with an enabled target has
  a run that ends that way, with the client connected
  (`LateEvents.EndsSilentlyWrong`).
- *A client is never cut off.* It stays connected exactly if every event it is sent
  carries the next revision of a listed target (`Convergence.ConnectedExactly`). A
  client that subscribes between an after-unlock section and its event is cut off
  by that event (`LateEvents.SpuriousGap`).
- *`launching` is set exactly while one launch is under way.* The steps that break
  this are exactly those that take a target away from under a launch of it
  (`Launch.StepAccounts`); then the target can be launched twice, and every
  configuration with an enabled target has a run in which it is
  (`Launch.DisturbedLaunchesTwice`, `Launch.LaunchedTwice`).
- *A stopped target is offline.* A target is stopped and online exactly since a step
  that stopped it while online or brought it up while stopped, until one that
  starts it or takes it offline (`Stranded.StrandedExactly`). Stopping during a
  launch gets any enabled target there (`Launch.StopDuringLaunch`,
  `Launch.StoppedAndOnline`).
- *A failed operation leaves the target directories as they were.* The exception is
  exactly a removal that is rolled back while a stale parked directory of its name
  exists (`Agreement.Rollback`, `Agreement.StaleDirectoryComesBack`).
- *A call gets its own response or an error.* The steps that break this are exactly
  those that use an id by which another call still expects its outcome
  (`Correlation.StepKeepsOrder`). Within one turn of the 64-bit counter there are
  none; one turn later there are runs that disconnect a waiting call
  (`Correlation.TurnDisplaces`) or hand it another call's response
  (`Correlation.TurnMisdelivers`).
- *The option lookup of `add` agrees with its validation.* It does exactly if the
  target is not named like the option (`AddOptions.OptionValueAgrees`,
  `AddOptions.FlagAgrees`; `AddOptions.OptionAsTarget`, `AddOptions.FlagAsTarget`).
- *The health state means what it says.* The counts are cast to 32 bits; exactly when
  they wrap to the wrong answer is `HealthReport.HealthMeaning`, and
  `HealthReport.HealthWraps` is a list on which they do.

## Model

| member | source | states |
|---|---|---|
| `Replica.ReplicaEquality` | crates/mpv-targetsd/src/supervisor.rs:334-382 | In every run whose events leave at once, a client that subscribes after any step is never rejected and after every later step holds exactly the daemon's snapshot: targets, order, fields, revisions, health |
| `Replica.StepFollows` | crates/mpv-targetsd/src/supervisor.rs:912-1056 | Every step sends at most one event, and that event takes a client in step with the old state to the new state; a step that sends nothing changes nothing a client sees |
| `Replica.ChangeEventFollows` | crates/mpv-targets/src/client.rs:892-956 | Applying the change event of one edit to the old snapshot gives the snapshot of the edited map |
| `Replica.SnapshotShows` | crates/mpv-targetsd/src/supervisor.rs:342-382 | The snapshot carries version 1, the node's name, every target once in ascending order and as it is, and below 2^32 targets a summary that counts what it shows |
| `Server.ServeConnection` | crates/mpv-targetsd/src/server.rs:79-116 | The snapshot first, then one frame for every answer and every event the loop reaches, each in its place and nothing else; one task for every request reached; every reached answer is among the frames; and the end is that of the first input that ends the loop, `target event revision gap` for a lagging subscriber |
| `Server.InputLeaves` | crates/mpv-targetsd/src/server.rs:105-110 | The frame of an input is its response or its event and stands where the frames of the earlier inputs leave off; requests likewise |
| `Server.HandledIsReached` | crates/mpv-targetsd/src/server.rs:90-115 | The loop gets to an input exactly if neither it nor an earlier one is a closing peer, a failing reader, a lagging or a closed broadcast |
| `Server.ServedClientHoldsTheDaemon` | crates/mpv-targetsd/src/server.rs:86-113 | A connection opened at any step of a prompt run and served everything published until a later step leaves the client at the other end without error and holding the daemon's snapshot |
| `Server.FramesCarryEvents` | crates/mpv-targetsd/src/server.rs:103-111 | The events among the written frames are the published ones in order, and the responses among them the answers in order |
| `Client.ConnectionHoldsTheDaemon` | crates/mpv-targets/src/client.rs:810-878 | A connection that starts from a snapshot and then reads everything broadcast since, with responses anywhere in between, never fails and holds the daemon's snapshot |
| `Divergence.NoSilentDivergence` | crates/mpv-targetsd/src/supervisor.rs:912-937 | With the after-unlock emitters sending late and in any order, a connected client's records are historical records of the targets' incarnations; otherwise it stopped on a revision gap or an unknown target |
| `Divergence.StepKeepsRecords` | crates/mpv-targetsd/src/supervisor.rs:1136-1181 | Every event ever computed is the exact difference of two consecutive historical records of one incarnation |
| `LateEvents.LateEventVerdict` | crates/mpv-targets/src/client.rs:892-910 | A waiting event of any incarnation keeps any faithful client connected if and only if its revision is the next one for the record held; the client is then faithful if and only if the landed record is one the target of today had; for the target's own events always |
| `LateEvents.FaithfulExactly` | crates/mpv-targetsd/src/supervisor.rs:912-937 | Over every run, without any assumption on late events or reused names, a client is faithful throughout if and only if no step sends it an event that corrupts it |
| `LateEvents.StepVerdict` | crates/mpv-targetsd/src/supervisor.rs:1136-1181 | Exactly which steps take a faithful client to an unfaithful one |
| `LateEvents.InStepVerdict` | crates/mpv-targetsd/src/supervisor.rs:578-578 | A client in step accepts a waiting event if and only if it carries the target's next revision, and is then connected and wrong |
| `LateEvents.BehindVerdict` | crates/mpv-targets/src/client.rs:903-910 | A client one late event behind accepts an event of that revision whatever target it is about, and is then right if and only if both land on one record |
| `LateEvents.EndsSilentlyWrong` | crates/mpv-targetsd/src/supervisor.rs:1158-1158 | For every configuration and every enabled target in it, a run from startup that ends with a client connected and holding a record the target never had |
| `LateEvents.AcceptedExactly` | crates/mpv-targets/src/client.rs:892-956 | The result of every event the daemon computes on every held snapshot: unknown target, revision gap, or the record changed |
| `LateEvents.OperationRuns` | crates/mpv-targetsd/src/supervisor.rs:496-634 | An addition or removal whose calls succeed and whose candidate is valid does to list, file, map, directories and broadcast what it is for |
| `Convergence.ConnectedConverges` | crates/mpv-targetsd/src/supervisor.rs:912-937 | In every run in which no late event outlives its target's name, a client still connected when nothing waits holds exactly the daemon's snapshot, and before that every target whose latest event is not waiting |
| `Convergence.CaughtUpOverRuns` | crates/mpv-targetsd/src/supervisor.rs:1136-1181 | Every revision between what a connected client holds and the target's own is waiting to be sent |
| `Convergence.ConnectedExactly` | crates/mpv-targets/src/client.rs:892-910 | In every run, a client is connected if and only if every event it was sent carried the next revision of a target listed at the time |
| `Delta.AcceptanceIsOfValues` | crates/mpv-targets/src/client.rs:914-953 | Whether a change is accepted depends on its values alone, not on the record it meets |
| `LateEvents.SpuriousGap` | crates/mpv-targetsd/src/supervisor.rs:934-934 | A subscriber that arrives between an after-unlock section and its event is ended by the event with a revision gap |
| `LateEvents.WaitsAfterUnlock` | crates/mpv-targetsd/src/supervisor.rs:912-937 | Exactly the three emitters that send after unlocking leave an event waiting; every other section sends its event with its edit |
| `LateEvents.FreshIsNeverNext` | crates/mpv-targets/src/client.rs:903-910 | An event of the current incarnation never carries a revision beyond the target's own |
| `Discipline.StepDiscipline` | crates/mpv-targetsd/src/supervisor.rs:384-436 | Over every step of every operation, a target's revision rises by exactly one if its visible record changes and stays put otherwise |
| `Discipline.StepAnnounces` | crates/mpv-targetsd/src/supervisor.rs:939-1018 | A visible edit of one target is announced by exactly one event, which maps the old record to the new one; an invisible edit announces nothing; no other target changes |
| `Discipline.CommitDisciplined` | crates/mpv-targetsd/src/supervisor.rs:680-688 | A rename raises the moved target's revision by one and keeps its identity; every other target is as it was |
| `Discipline.RevisionsOverRuns` | crates/mpv-targetsd/src/supervisor.rs:1121-1181 | Between two moments of any run a target that keeps its name keeps its identity, its revision never falls, and equal revisions mean equal visible records |
| `Runtime.RevisionDiscipline` | crates/mpv-targetsd/src/supervisor.rs:811-1018 | Each critical section bumps the revision exactly when it changes the visible record, and announces exactly then |
| `Runtime.AnnouncementIsExact` | crates/mpv-targetsd/src/supervisor.rs:881-937 | The fields a section announces turn the old record into the new one for the client's decoder |
| `Runtime.AnnouncesTheChanges` | crates/mpv-targetsd/src/supervisor.rs:881-1056 | The fields a section announces are exactly those whose slot it changed; the end of a file always announces both of its fields |
| `Runtime.SectionEffect` | crates/mpv-targetsd/src/supervisor.rs:811-984 | What every section makes of stopped, online, launching, recovering and the observed state; coming online ends the recovery |
| `Runtime.EveryCrashIsRecovered` | crates/mpv-targetsd/src/supervisor.rs:811-968 | A target that is up, crashes and is recovered is up again and not recovering, any number of times in a row |
| `Runtime.CrashIsRecovered` | crates/mpv-targetsd/src/supervisor.rs:832-877 | One crash takes the target offline, recovery is claimed for it, and the launch that follows leaves it as it was before the crash |
| `Agreement.AgreementOverRuns` | crates/mpv-targetsd/src/supervisor.rs:496-690 | The invariant of every reachable state: runtime map, list and file agree, every operation under way is where its phase says, every written configuration is valid, every finished operation is accounted for |
| `Agreement.MutationProtocol` | crates/mpv-targetsd/src/supervisor.rs:986-1042 | No `expect` fails; with the lock free the file is the configuration, during an operation it is the old one or the candidate; a commit applies the operation to the configuration of that moment |
| `Agreement.StepKeepsConsistency` | crates/mpv-targetsd/src/supervisor.rs:567-586 | Every step of every task keeps that invariant |
| `Agreement.EveryOutcomeIsLawful` | crates/mpv-targetsd/src/supervisor.rs:527-566 | Every operation that ever finishes obeys the rollback law if it failed before its commit, and moved the directories exactly as the target set if it completed |
| `Agreement.Rollback` | crates/mpv-targetsd/src/supervisor.rs:600-632 | An operation that fails before its commit leaves target set, configuration and file alone, and the target directories if and only if it is not a removal over a stale parked directory |
| `Agreement.DirectoriesFollowTargets` | crates/mpv-targetsd/src/supervisor.rs:655-688 | On success the target directories change exactly as the target set does |
| `Agreement.StaleDirectoryComesBack` | crates/mpv-targetsd/src/supervisor.rs:605-626 | The excepted family is reachable: the rolled-back removal renames the stale directory to the target's |
| `Agreement.ParkedIsNoTarget` | crates/mpv-targets/src/protocol.rs:338-359 | A parked directory never has a valid target's name |
| `Agreement.ParkedApart` | crates/mpv-targetsd/src/supervisor.rs:605-608 | Two targets' directories are never parked under one name |
| `Agreement.RestartRebuilds` | crates/mpv-targetsd/src/supervisor.rs:270-316 | A restart from the file at any moment of any run builds exactly one target per entry, with the entry's configuration, stopped if disabled |
| `Agreement.BuildTargetsAgrees` | crates/mpv-targetsd/src/supervisor.rs:272-295 | From a list of distinct names the collected map has one target per entry and nothing else |
| `Launch.LaunchExclusion` | crates/mpv-targetsd/src/supervisor.rs:384-412 | As long as no step disturbs a target mid-launch, at most one launch per target is under way and `launching` is set exactly while one is |
| `Launch.StepAccounts` | crates/mpv-targetsd/src/supervisor.rs:881-910 | Exactly the steps that remove, rename, switch off or attach to a target mid-launch break that accounting |
| `Launch.NeverOnlineAndLaunching` | crates/mpv-targetsd/src/supervisor.rs:939-984 | In every reachable state of every run no target is online and launching |
| `Launch.DisturbedLaunchesTwice` | crates/mpv-targetsd/src/supervisor.rs:897-905 | Switching a target off mid-launch lets the next start launch it a second time |
| `Launch.LaunchedTwice` | crates/mpv-targetsd/src/supervisor.rs:384-412 | For every enabled target, a run from startup (start, stop, disable, restart, enable, start) after which two launches of it are under way |
| `Launch.StopDuringLaunch` | crates/mpv-targetsd/src/supervisor.rs:945-952 | A stop during a launch is followed by stopped and online |
| `Launch.StoppedAndOnline` | crates/mpv-targetsd/src/supervisor.rs:945-952 | For every enabled target, a run from startup (start, stop, the launch succeeds) that ends with it stopped and online |
| `Stranded.StepStrands` | crates/mpv-targetsd/src/supervisor.rs:384-436 | Exactly which steps make a target stopped and online, and exactly which end that, over every label, the commit of a rename included |
| `Stranded.StrandedExactly` | crates/mpv-targetsd/src/supervisor.rs:939-978 | Over every run, a target is stopped and online if and only if some step made it so and none since has ended it |
| `Observed.ObservedUpdateAgrees` | crates/mpv-targetsd/src/supervisor.rs:1121-1134 | For every observed field and every JSON value, what the daemon stored is what the client decodes from the emitted value |
| `Observed.MessageIsHeard` | crates/mpv-targetsd/src/supervisor.rs:1086-1118 | What every message means: the reasons by mpv's words, an empty error as none, the end cleared when a file is loaded, and one slot per observed property |
| `Observed.PropertyIsHeard` | crates/mpv-targetsd/src/supervisor.rs:21-67 | What every observed property stores for every JSON value: whole seconds at or below the reported time, no position for a negative number, counts of 32 bits, off for exactly false, zero, `no`, `off`, `false` and `0`, tracks by text or in decimal, and nothing for values that do not fit |
| `Observed.NormalizedValuesAgree` | crates/mpv-targetsd/src/supervisor.rs:42-166 | After normalisation the daemon's and the client's readers accept the same values and store the same slot |
| `Observed.NormalizationIsNeeded` | crates/mpv-targetsd/src/supervisor.rs:42-67 | Without normalisation they disagree on mpv's `inf` |
| `Observed.ClearChangesAgree` | crates/mpv-targetsd/src/supervisor.rs:912-937 | Null for every filled slot clears the client's record to the default state |
| `Observed.EndChangesAgree` | crates/mpv-targetsd/src/supervisor.rs:1136-1181 | The reason and error of an ended file, set or cleared together, reach the client as stored |
| `Observed.MediaEndReasonAgrees` | crates/mpv-targetsd/src/supervisor.rs:168-177 | The daemon's reading of a reason is the client's, and unknown names are unknown |
| `Delta.OrderIrrelevant` | crates/mpv-targets/src/client.rs:914-953 | Whatever order the fields of a change are visited in, the loop accepts the same changes and yields the same record |
| `Delta.FoldMeaning` | crates/mpv-targets/src/client.rs:914-953 | The loop over the fields it visited gives each its decoded value and keeps every other |
| `Delta.SetFieldFrame` | crates/mpv-targets/src/client.rs:915-943 | One match arm accepts by the value alone, writes its own slot from the value alone, and no other slot |
| `Fields.ObjectRoundTrip` | crates/mpv-targets/src/client.rs:909-913 | A written object of changed fields is read back as the same fields |
| `Wire.KeyIsRead` | crates/mpv-targets/src/client.rs:914-1029 | Every key of a change object is read into its own slot, every JSON value as what it says or not at all, and no other key is known |
| `Wire.ReasonsRead` | crates/mpv-targets/src/client.rs:1015-1025 | A reason is read from its name, or from an object with that one key and null under it, and from nothing else |
| `Client.ApplyChange` | crates/mpv-targets/src/client.rs:892-956 | The change applied in place, with its errors, against the order-free meaning of the change |
| `Client.ApplyFields` | crates/mpv-targets/src/client.rs:914-953 | The loop over the keys in an arbitrary order computes the order-free meaning, or rejects |
| `Receiver.ChangeVerdict` | crates/mpv-targets/src/client.rs:892-956 | A change is rejected for an unlisted target, then a revision that is not the next, then something that is no object, then an unknown key or a value that does not decode; otherwise that one record takes the decoded values and the revision |
| `Receiver.SnapshotVerdict` | crates/mpv-targets/src/client.rs:856-873 | A snapshot is taken over exactly if its version is 1; a change before any snapshot is an error |
| `Client.RemoteClient.HandleMessage` | crates/mpv-targets/src/client.rs:849-890 | An accepted event replaces the snapshot and is passed on; a rejected one leaves everything as it was and is an error; a response reaches the sender under its id and no other, data as data and an error as the server's error |
| `Client.FrameVerdict` | crates/mpv-targets/src/client.rs:826-831 | Which frames end the connection and with which error, and what every other frame changes |
| `Client.RemoteClient.RunConnection` | crates/mpv-targets/src/client.rs:810-847 | The connection consumes frames up to the first failure, records the error, sets the flag and drains the pending map |
| `Client.RemoteClient.DrainPending` | crates/mpv-targets/src/client.rs:842-846 | Whatever order the map yields, every registered sender gets the error and the map is empty |
| `Client.RemoteClient.BeginRequest` | crates/mpv-targets/src/client.rs:427-449 | A request on a flagged client is refused without a trace; otherwise it takes the counter's id, and registers its sender under it unless validation fails |
| `Client.ConsumePrefix` | crates/mpv-targets/src/client.rs:818-831 | The failing frame and everything after it leave no trace, everything before it was accepted, and the events passed on are exactly those before it |
| `Client.ConsumeReplays` | crates/mpv-targets/src/client.rs:849-878 | With responses and other frames anywhere among the events, the connection is the follower that replays the events |
| `Correlation.CorrelationOverRuns` | crates/mpv-targets/src/client.rs:427-472 | In every run in which no step collides, a finished call is no longer registered; data is the data of the response computed for it, a remote error the error of that response or of the connection, and anything else a timeout, a refusal or the connection's error; a waiting call is registered or answered, never neither |
| `Correlation.CorrelationInOneTurn` | crates/mpv-targets/src/client.rs:438-438 | The same for every run of at most 2^64 calls, with the id of a finished call not pending at all |
| `Correlation.RequestRoundTrip` | crates/mpv-targets/src/client.rs:427-471 | A call whose request goes through gets the server's data as data and the server's error as that error, frees its id and disturbs no other call |
| `Correlation.RequestTimesOut` | crates/mpv-targets/src/client.rs:466-470 | A call that is not answered in time ends with a timeout and leaves no id behind |
| `Correlation.InvalidIsRefused` | crates/mpv-targets/src/client.rs:444-446 | An invalid request is refused on the spot, its id used up and nothing registered |
| `Correlation.ConnectionGoesDown` | crates/mpv-targets/src/client.rs:833-847 | When an open connection goes down every registered call ends with its error, or as disconnected; nothing stays pending and no call comes in any more |
| `Correlation.DrainMeaning` | crates/mpv-targets/src/client.rs:842-846 | The drain fills exactly the empty slots somebody is registered for |
| `Correlation.WithdrawDisplaces` | crates/mpv-targets/src/client.rs:453-470 | A call that withdraws an id by which another one waits drops that one's sender, and it ends with the connection's error or as disconnected |
| `Correlation.FlaggedOverRuns` | crates/mpv-targets/src/client.rs:833-842 | In every run the flag is set before the drain |
| `Correlation.OneOutcome` | crates/mpv-targets/src/client.rs:458-471 | No later step changes a call's outcome |
| `Correlation.EveryCallCompletes` | crates/mpv-targets/src/client.rs:445-471 | From any state the remaining steps of a call's own future bring it to an outcome |
| `Correlation.StepKeepsOrder` | crates/mpv-targets/src/client.rs:833-889 | A step of caller, connection or server keeps the correlation invariant if and only if it does not use an id by which another call still expects its outcome |
| `Correlation.LateRegistration` | crates/mpv-targets/src/client.rs:833-847 | A call that registers after the drain ends with the connection's error or a timeout and leaves no id behind |
| `Correlation.AnswersStay` | crates/mpv-targetsd/src/server.rs:115-140 | What the server computed for a request is final and is delivered as computed, under the request's own id |
| `Correlation.EchoesId` | crates/mpv-targetsd/src/server.rs:115-140 | Whatever becomes of a request, its response carries the request's own id |
| `Correlation.DispatchMeaning` | crates/mpv-targetsd/src/server.rs:118-140 | A text that is no JSON gets an error without an id, one that is no request or an invalid one its own error, a request carried out what the operation answered, all under the text's own id if it is a string |
| `Correlation.RequestIdsAgree` | crates/mpv-targets/src/client.rs:438-438 | Two calls share an id if and only if they are whole turns of the 64-bit counter apart |
| `Correlation.RequestIdSpells` | crates/mpv-targets/src/client.rs:438-438 | Within the first turn the id of a call spells its number, from 1 |
| `Correlation.TurnDisplaces` | crates/mpv-targets/src/client.rs:449-449 | A run from the start in which the counter makes a whole turn, a waiting call's id is taken over, and that call ends as disconnected on an open connection |
| `Correlation.TurnMisdelivers` | crates/mpv-targets/src/client.rs:879-887 | A run from the start in which a call one turn later finishes with the response of the call that had its id before |
| `Supervision.Supervisor.constructor` | crates/mpv-targetsd/src/supervisor.rs:270-316 | A new supervisor holds one fresh target per entry, stopped if disabled |
| `Supervision.Supervisor.Start` | crates/mpv-targetsd/src/supervisor.rs:384-412 | Launches exactly when enabled and offline, once; says which of the three errors it is; and leaves the target not stopped, online if it was or came up, out of recovery if it came up, and changed in nothing else |
| `Supervision.Supervisor.Stop` | crates/mpv-targetsd/src/supervisor.rs:414-436 | Success means stopped, offline and empty observed state, nothing else changed; a failed quit leaves it stopped and still online; any other failure changes nothing |
| `Supervision.Supervisor.Restart` | crates/mpv-targetsd/src/supervisor.rs:438-448 | Exactly when it succeeds and with which error it fails; a disabled target is never launched; any other comes back online with one launch unless it was stopped and online |
| `Supervision.Supervisor.EnsureDisabledOff` | crates/mpv-targetsd/src/supervisor.rs:881-910 | Success means stopped, offline, not recovering and empty observed state, and nothing else changed; failure changes nothing |
| `Supervision.Supervisor.Enable` | crates/mpv-targetsd/src/supervisor.rs:450-461 | Exactly when it succeeds; then the target is enabled, one revision later if it was not, without starting |
| `Supervision.Supervisor.Disable` | crates/mpv-targetsd/src/supervisor.rs:463-477 | Exactly when it succeeds; then the target is disabled and stopped, and switched off on the way if it was not stopped; every state between operations keeps disabled targets stopped |
| `Supervision.Supervisor.SetTargetChannel` | crates/mpv-targetsd/src/supervisor.rs:479-494 | Exactly when it succeeds, with the three errors told apart; then the channel is the one given, one revision later if it is new |
| `Supervision.Supervisor.PersistTargetChange` | crates/mpv-targetsd/src/supervisor.rs:986-1019 | One entry changes, in its place in the list, in the file and in the runtime map together, one revision later and with its event, or nothing does; which errors there are and when |
| `Supervision.Supervisor.AddTarget` | crates/mpv-targetsd/src/supervisor.rs:496-585 | Fails exactly for a known name, an unknown source, an existing directory, an invalid name or a file system failure, each with its error; success adds exactly the entry at the end, a fresh stopped target with the source's channel, and the directory, and announces the new list; failure changes nothing that tidying restores |
| `Supervision.Supervisor.RemoveTarget` | crates/mpv-targetsd/src/supervisor.rs:587-634 | Exactly when the target goes and with which error it stays; it is gone from list, file, map and directories together, the gap in the list closed and the new list announced last, or it is in all of them; an unknown name changes nothing |
| `Supervision.Supervisor.RenameTarget` | crates/mpv-targetsd/src/supervisor.rs:636-690 | Exactly when it fails and with which error; success moves entry, file, runtime target and directory to the new name in the old place, one revision later, and announces the new list; failure changes nothing that rolling back restores |
| `Supervision.Supervisor.OnTargetLost` | crates/mpv-targetsd/src/supervisor.rs:811-830 | An online target goes offline with empty observed state and an offline one is left alone; recovery is asked for exactly if it was online, is enabled and not stopped |
| `Supervision.Supervisor.Recover` | crates/mpv-targetsd/src/supervisor.rs:832-877 | The loop sleeps the delays of the schedule, launches once after each, and ends with the first launch that comes up, which leaves the target online and no longer recovering |
| `Supervision.Supervisor.CrashAndRecover` | crates/mpv-targetsd/src/supervisor.rs:811-877 | A target that is up and loses its process is up again, ready for its next crash, if any launch comes up, after a single launch if the first does |
| `Supervision.Supervisor.MarkOnlineSection` | crates/mpv-targetsd/src/supervisor.rs:939-968 | An offline target comes out online, not launching and not recovering, one revision later |
| `Supervision.Supervisor.ObserveMessage` | crates/mpv-targetsd/src/supervisor.rs:1079-1118 | Every message of the observer keeps the object valid, disabled targets stopped included; the observed state becomes what the message says, property by property and value by value, one revision later if new, and nothing else changes |
| `Supervision.Supervisor.UpdateObserved` | crates/mpv-targetsd/src/supervisor.rs:1121-1134 | One reported property is the machine's step, the edit of one target and its event, and nothing else |
| `Supervision.Supervisor.SetMediaEnd` | crates/mpv-targetsd/src/supervisor.rs:1136-1181 | The same for the end of a file and for its clearing |
| `Supervision.Supervisor.ClearObservedSection` | crates/mpv-targetsd/src/supervisor.rs:912-937 | The same for the clearing of the observed state |
| `Supervision.SwitchOff` | crates/mpv-targetsd/src/supervisor.rs:889-909 | Switching off flag by flag is one edit that announces exactly the flags that changed |
| `Supervision.Supervisor.StateConsistent` | crates/mpv-targetsd/src/supervisor.rs:496-690 | The object's fields satisfy the invariant of every run |
| `Supervision.Supervisor.SubscriberInStep` | crates/mpv-targetsd/src/supervisor.rs:334-340 | A client that subscribed at the beginning and consumed every event the object sent holds its snapshot |
| `HealthReport.RefreshHealth` | crates/mpv-targets/src/client.rs:1031-1052 | The client's pass computes the daemon's summary for every target list; below 2^32 targets it counts the targets, those enabled and not stopped, and those of them online |
| `HealthReport.SummaryCounts` | crates/mpv-targetsd/src/supervisor.rs:356-375 | Below 2^32 targets the counts are the numbers of such places in the list, and the state says none is wanted, all wanted are online, or some are not |
| `HealthReport.HealthMeaning` | crates/mpv-targetsd/src/supervisor.rs:356-375 | Exactly when the counts, idle and ready are right, for every target list |
| `HealthReport.HealthOfShortLists` | crates/mpv-targetsd/src/supervisor.rs:356-375 | Below 2^32 targets, online <= expected <= configured, idle means nothing is expected, and ready means something is and all of it is online |
| `HealthReport.HealthWraps` | crates/mpv-targetsd/src/supervisor.rs:356-375 | At 2^32 expected targets the cast wraps and the state is idle |
| `Ordering.SortedKeysUnique` | crates/mpv-targetsd/src/supervisor.rs:342-355 | The snapshot's order is the only ascending listing of the names |
| `Ordering.BelowExactly` | crates/mpv-targetsd/src/supervisor.rs:342-355 | The order of the names is that of their first different characters, a beginning before the whole |
| `Config.Validate` | crates/mpv-targets/src/config.rs:46-73 | The loop accepts exactly the configurations with a valid frame, valid targets and pairwise distinct names, and reports the first thing wrong with any other; a reported duplicate occurs twice |
| `Config.ComplaintsAreReal` | crates/mpv-targets/src/config.rs:46-73 | No error can be reported of a well-formed configuration |
| `Config.OneComplaint` | crates/mpv-targets/src/config.rs:46-73 | For every configuration there is at most one error to report |
| `Paths.ConfigPathExactly` | crates/mpv-targets/src/config.rs:76-90 | A configuration path is accepted exactly if it is not empty, not absolute, and `..` never stands alone between its slashes |
| `Paths.ChannelExactly` | crates/mpv-targets/src/protocol.rs:131-146 | A channel is accepted exactly if it has `://` in it, or is an absolute path whose last component has a stem and the extension m3u or m3u8 in any case |
| `Protocol.NameExactly` | crates/mpv-targets/src/protocol.rs:338-359 | A target name is accepted exactly if it is not `all` and is 1 to 64 lower-case letters, digits, dashes and underscores, the first a letter or digit |
| `ListEdits.Removal` | crates/mpv-targetsd/src/supervisor.rs:609-614 | Removing a target closes the gap its entry leaves and makes a well-formed configuration |
| `ListEdits.Renaming` | crates/mpv-targetsd/src/supervisor.rs:658-669 | Renaming changes the name in its place, and makes a well-formed configuration exactly if the new name is valid |
| `ListEdits.Addition` | crates/mpv-targetsd/src/supervisor.rs:547-557 | Adding a target under a new name makes a well-formed configuration exactly if the name is valid |
| `AddOptions.ValidateAddArgs` | crates/targets/src/main.rs:231-254 | Accepts what the left-to-right scan accepts and reports the scan's error |
| `AddOptions.ParseReads` | crates/targets/src/main.rs:231-254 | Every argument list is a target, options well given and none twice, and what is objected to: an unknown option, one given before, or one whose value is missing or looks like an option; it is accepted exactly if nothing is, and then binds the options as given |
| `AddOptions.LawfulIsAccepted` | crates/targets/src/main.rs:231-254 | Every target followed by options well given, none twice and in any order, is accepted |
| `AddOptions.ObjectionIsReported` | crates/targets/src/main.rs:238-250 | Every objection is reported as what it is |
| `AddOptions.OptionValueAgrees` | crates/targets/src/main.rs:569-577 | For accepted arguments the lookup by first occurrence agrees with the scan if and only if the target is not named like the option |
| `AddOptions.FlagAgrees` | crates/targets/src/main.rs:502-503 | For accepted arguments a flag's presence agrees with the scan if and only if the target is not named like the flag or the flag is given as well |
| `AddOptions.OptionAsTarget` | crates/targets/src/main.rs:498-501 | Accepted arguments whose target is named like an option make the lookup fail, or take the next option for the value |
| `AddOptions.FlagAsTarget` | crates/targets/src/main.rs:502-503 | An accepted target named like a flag is found among the flags |
| `AddOptions.ScanBinds` | crates/targets/src/main.rs:231-254 | What an option is bound to is decided by its first occurrence after the target |
| `Url.DaemonUrl` | crates/targets/src/main.rs:152-166 | The URL shows the listener, or the loopback of its family with the same port and scope if it listens everywhere |
| `Notation.AddressIsShown` | crates/targets/src/main.rs:165-165 | The text of an address shows its numbers: dotted decimals, or groups in base 16 with the first of the longest runs of zeros left out, an embedded IPv4 address for a mapped one, the scope if there is one, brackets for IPv6, and the port |
| `Notation.LongestRunMeans` | crates/targets/src/main.rs:165-165 | The zeros left out of an IPv6 address are the first of the longest runs |
| `Url.UrlRoundTrip` | crates/mpv-targets/src/client.rs:1098-1117 | The client parses that URL back to the host text without brackets and the port, for every IPv4 and IPv6 address |
| `Url.ParseExactly` | crates/mpv-targets/src/client.rs:1098-1117 | The verdict on every URL with a host and a port: an invalid port first, then a missing host, otherwise the port and the host without square brackets at its ends |
| `Url.ParseRejects` | crates/mpv-targets/src/client.rs:1098-1106 | A text without the scheme and an authority without a colon are rejected as that |
| `Url.EveryUrlHasParts` | crates/mpv-targets/src/client.rs:1098-1106 | Every text with the scheme is of one of those two kinds |
| `Url.PortExactly` | crates/mpv-targets/src/client.rs:1107-1109 | A port is an optional plus sign and digits that fit 16 bits |
| `Url.LoopbackText` | crates/targets/src/main.rs:158-164 | Listeners on every interface are reached at 127.0.0.1 and ::1 |
| `Decimal.PortRoundTrip` | crates/mpv-targets/src/client.rs:1107-1109 | A printed port is read back |
| `Playlist.PlaylistM3u` | crates/mpv-targetsd/src/supervisor.rs:1313-1328 | Accepted exactly when every entry is an object with a one-line text under `filename`; the text, cut at newlines, is the header, those file names in order and an empty end; the count is their number |
| `Text.SplitExactly` | crates/mpv-targetsd/src/supervisor.rs:1317-1326 | Cutting a text at a separator and joining separator-free pieces with it are inverse to each other |
| `Playlist.ListsIsInvertible` | crates/mpv-targetsd/src/supervisor.rs:1313-1328 | Two saved playlists have the same text if and only if they name the same files in the same order |
| `Backoff.DelayClosedForm` | crates/mpv-targetsd/src/supervisor.rs:69-71 | The n-th delay is the smaller of 2^n and 30 seconds, and delays never shrink |
| `Backoff.TotalClosedForm` | crates/mpv-targetsd/src/supervisor.rs:850-877 | From the fifth attempt on the total slept is 31 + 30(n - 5) seconds |

## Left out

- TLS, certificates, TCP, WebSocket framing and Tokio scheduling; the connection appears as the frames its reader yields, and scheduling as the free interleaving of steps.
- Spawning mpv, probing its socket and its line protocol; each such call is an oracle that succeeds, fails or yields an arbitrary JSON value.
- The text of JSON and TOML; values are modelled after parsing.
- Floating-point rounding; volumes, durations and positions are real numbers.
- Revisions are unbounded naturals; their 64-bit overflow is not modelled.
- Crash consistency between the directory move and the write of the file; the code does not promise it.
- When a client lags behind the broadcast buffer is left open; that it then ends the connection is modelled.
- A failed write of the server to its socket; it ends the connection like a closed peer.
- Liveness of recovery under interleaving; the code does not provide it. `Supervision.Supervisor.Recover` is the loop running alone.
- `start_configured_targets`; attaching at startup is a label of the machine, the loop over the targets is not modelled.
- `save_channel`, `list_channels`, `mpv_command` and the command allow-list: one-branch wrappers around oracles.
- The other subcommands' argument shapes, labels, receipts and prompts of the command line; the `deploy-targets` crate.
- The sections of `stop` inside `remove` and of `start` inside recovery are ordinary labels of the machine, so the run theorems cover more interleavings than the code has.
- Supervision.Supervisor.RemoveTarget: runs the inner stop first and alone; its interleavings with other tasks are covered by the labels of the machine.
- Divergence.NoSilentDivergence: assumes that no late event outlives its target's name being reused; `LateEvents.FaithfulExactly` is the exact statement without that assumption.
- The texts of error messages; errors are told apart by kind.
- The JSON shape of each operation's answer and the table of codes for the supervisor's errors; an operation's answer is any value or any error with its code.
