# Fleet, modelled and proved

Fleet watches coding agents. One **Hub** holds the authoritative sessions and runs; reporters send it
deltas, and faces (the desktop window, the rail inside it, the command line) fold the Hub's broadcasts
back into copies of its state. This project models that system in Dafny and proves that the copies, the
badges, the notification outcomes, the durable log and the optimistic clicks agree with the Hub, over whole
runs. Where the code does not keep a promise, the exact condition under which it does is proved instead.

`dafny verify dfyconfig.toml` checks the whole project.

## How it is organised

| file | what it holds |
|---|---|
| `Protocol.dfy` | sessions, runs, events, and the rollup order |
| `MergeSpec.dfy` | the Hub's step as a function of state and operation; its invariants; snapshot and restore; what an update list means |
| `Effects.dfy` | what each operation leaves at the Hub, field by field |
| `MergeEngine.dfy` | the Hub's engine as a mutable object; every method is one `MergeSpec.Step` |
| `Faces.dfy`, `Cli.dfy` | the GUI and CLI reducers, replication over runs, the sorted listing |
| `Attention.dfy` | who should ping: the mute/solo policy, `unread` as a property of history, the competing ping rules |
| `View.dfy`, `Rail.dfy` | the tab list and its sort, the rendering, and the rail's optimistic prediction of the Hub |
| `Optimistic.dfy` | optimistic actions, late failures and pushed inboxes under every interleaving |
| `Notify.dfy` | notification outcomes, what they leave outstanding, and what stays on the screen |
| `Persist.dfy`, `Restart.dfy`, `Reclaim.dfy` | the event log, which badges a restart misses, and the redelivery gate in front of the log |
| `Server.dfy`, `Catchup.dfy` | the server's commit and broadcast, and how a face recovers from a half-way collection |
| `Firing.dfy` | what one operation fires, event by event |
| `EndToEnd.dfy` | click, operation, broadcast, fold, render and notify, together |
| `Bridge.dfy`, `Mux.dfy` | the server registry with delayed drops, the merged list, editor labels |
| `Palette.dfy` | fuzzy matching and the two unread-cycling algorithms |
| `Inject.dfy`, `Init.dfy` | `fleet init` and `fleet uninit` over a file tree |
| `Ordering.dfy` | strict orders, uniqueness of sorted lists, the stable sort |

A run is a sequence of `MergeSpec.Op`. It is *disciplined* (`Attention.Disciplined`) when each session
upsert repeats the flags the Hub holds, or brings none for a new session. The engine takes an upsert's
flags verbatim, so the solo, mute and unread properties need this; `Persist.StorePreservesFlags` and
`Persist.StoreKeepsPolicy` show that the durable store provides it for held sessions.

## Where code and documentation differ

The model follows the code.

- `crates/fleet-hub/src/persist.rs:1-30` promises that a restart restores every session exactly. A flag
  command is logged as whole-session rows, and replaying them goes through the upsert's edge trigger with
  the solo bit of the moment. Un-soloing the only soloed session, waiting and unread, loses its badge
  (`StepExact`, `BadgeLossIsReachable`); nothing else is ever lost (`RestartLosesOnlyBadges`), and a lost badge
  comes back with the next operation that decides it afresh (`MissingIsHistory`).
- `crates/fleet-hub/src/persist.rs:536-546` says memory and log never diverge. A flag command that touches
  several sessions and fails on a later row has already written the earlier ones, and only memory is put
  back (`FailedFlagDiverges`). A focus whose row fails is acknowledged in memory only, by design
  (`FocusDivergesIfUnwritten`).
- `crates/fleet-hub/src/persist.rs:453-485` records a delta's stamp before appending its row, so a delta
  whose append failed is refused as a duplicate until its mark is forgotten, by a restart or by the removal
  of its session or run (`RedeliveryEffect`, `ReadmittedIffForgotten`).
- `crates/fleet-hub/src/server.rs:345-358` commits a whole garbage collection as one mutation: if a later
  row fails, the removals already made are neither published nor broadcast (`StepKeepsSync`,
  `PartialCollectionIsReachable`). The next commit repairs what is published (`RejoinRepairsIff`); a face that
  stays connected keeps showing a collected session until a broadcast states it (`AfterHalfWay`).
- `crates/fleet-host-core/src/notify.rs:116-130` says an auto-resolve dismisses the pending notification.
  `crates/fleet-host/src/hub_client.rs:423-437` acts on fires alone, so a notification outlives its reason
  (`StuckExactly`, `ShownMatchesHubIff`, `StuckNotificationIsReachable`). What the outcomes leave outstanding
  once an operation's events are in is right (`OutcomesMatchHub`).
- `crates/fleet-host/src/hub_client.rs:110-137` compares views after every single event. Between the events of
  one operation the view can show a state the Hub never was in, so two notifications fire that nobody wants: a
  solo moving past a waiting session, and the removal of a session's last, urgent run (`FiresExactly`: these
  and no others; `PassedOverIsShown`, `EmptiedIsShown`).
- `crates/fleet-host/ui/main.js:1267-1273` says a failed action is rolled back unless a newer inbox has landed.
  Line 1284 compares revisions, which any other click also moves, so a click that fails after a later one stays
  on the rail until the next push (`InForceIsSent`, `StrandedFailureMisleads`).
- `crates/fleet-host/ui/main.js:1379-1408` drops a closed server's session from the rail at once and says
  nothing about it to the Hub; the next push brings back a session the Hub still holds (`InForceIsSent`).
- `crates/fleet-cli/src/init.rs:540-627` writes Claude's settings before it parses Codex's config and saves
  the manifest last; a Codex config that does not parse leaves a rewrite that `fleet uninit` cannot undo.
  A backup file that was already there is taken for the pre-Fleet state (`UninitRestores`).
- `crates/fleet-cli/src/init.rs:35-38` promises a byte-identical tree after uninit; the directories init
  created stay (`DirectoriesStay`).

## Model

| member | source | states |
|---|---|---|
| `EndToEnd.OptimisticMatchesPushed` | crates/fleet-host/ui/main.js:195-261 | On every disciplined run and whenever the host face joined: if since the last push no action failed too late to be rolled back and no server was closed, the inbox the rail shows is, up to row order, the one the host pushes once the Hub has applied and broadcast, and the host has folded and rendered, everything the Hub was told since: the accepted actions and confirmed dismissals, minus the actions that failed |
| `EndToEnd.OutcomesMatchHub` | crates/fleet-host/src/hub_client.rs:55-147 | However often the host reconnected, once the events of an operation are in, what the notification outcomes leave outstanding (fired, not auto-resolved) belongs to sessions the Hub itself wants noticed |
| `EndToEnd.ShownMatchesHubIff` | crates/fleet-host/src/hub_client.rs:420-437 | Delivery shows fires and dismisses nothing: everything on the screen is wanted by the Hub if and only if every session with a reason to be shown (shown before the last connection, pinging afresh at its snapshot, or fired by an operation since) still notifies |
| `EndToEnd.ShownExactly` | crates/fleet-host/src/hub_client.rs:110-137 | Over any number of connections, a session is on the screen if and only if it was there before the last one, or the snapshot of the last one made it ping afresh, or some operation since fired it, in the sense of `Firing.FiresExactly` |
| `EndToEnd.PassedOverIsShown` | crates/fleet-hub/src/merge.rs:364-386 | On every disciplined run: while a solo moves from an earlier-listed session to a later one, a third session that waits unmuted is shown, although the Hub wants it noticed neither before nor after |
| `EndToEnd.PassingIsReachable` | crates/fleet-hub/src/merge.rs:364-386 | Six operations reach it: three sessions, the middle one starts to wait, the first is soloed, then the last |
| `EndToEnd.EmptiedIsShown` | crates/fleet-host-core/src/view.rs:318-326 | On every disciplined run: a notifying session with an urgency that loses its last run is shown, although the Hub no longer wants it noticed |
| `EndToEnd.EmptyingIsReachable` | crates/fleet-host-core/src/view.rs:318-326 | Three operations reach it: a session, its waiting run with an urgency, and the removal of that run |
| `Firing.FiresExactly` | crates/fleet-host/src/hub_client.rs:110-137 | For one operation from a state that keeps the policy: its events make a session ping afresh on an in-sync face if and only if it begins to notify or changes urgency at the Hub; or the operation moves a solo from an earlier-listed session and this is a third one, waiting and unmuted; or the operation removes the last run of this notifying session with an urgency |
| `Firing.RunFiresExactly` | crates/fleet-host/src/hub_client.rs:110-137 | What a whole run fires is exactly what its operations fire |
| `EndToEnd.RaisedIsShown` | crates/fleet-host/src/hub_client.rs:420-437 | A session silent when the face joined and notifying after the latest operation has been shown |
| `EndToEnd.AnsweredStaysShown` | crates/fleet-host/src/hub_client.rs:420-437 | On every run, a session that notified at some point after the face joined and no longer does is still on the screen, although auto-resolved |
| `EndToEnd.StuckNotificationIsReachable` | crates/fleet-host/src/hub_client.rs:420-437 | Three operations reach it: a session is reported, its run starts to wait, and it is muted |
| `EndToEnd.BadgeMatchesHub` | crates/fleet-host/src/render.rs:101-113 | The dock badge equals the number of sessions that notify by the Hub's own rule |
| `EndToEnd.ShowingIsUnique` | crates/fleet-host/src/render.rs:101-113 | Two inboxes that render the same Hub have the same rows (each once) and the same counts |
| `Protocol.RollupStateIsMostUrgent` | crates/fleet-protocol/src/rollup.rs:37-39 | The rolled-up state is absent exactly for no runs; otherwise some run has it and no run outranks it |
| `Protocol.RollupUrgencyIsMostUrgent` | crates/fleet-protocol/src/rollup.rs:43-47 | The same for urgency, a run without one counting as "none" |
| `Protocol.RollupStateByCases` | crates/fleet-protocol/src/rollup.rs:14-39 | Without ranks: waiting if some run waits, otherwise error, working, done, idle if some run is in that state, and dead only if every run is |
| `Protocol.RollupUrgencyByCases` | crates/fleet-protocol/src/rollup.rs:26-47 | Without ranks: approval if some run asks for it, otherwise question, otherwise idle-done, otherwise none, which is stored as absent |
| `MergeSpec.StepKeepsValid` | crates/fleet-hub/src/merge.rs:183-432 | Every operation keeps: order duplicate-free and equal to the map's keys, ids matching their keys, every stored rollup equal to its recomputation |
| `MergeSpec.RunKeepsValid` | crates/fleet-hub/src/merge.rs:183-432 | The same over every run of operations |
| `MergeSpec.RollupsAreMostUrgent` | crates/fleet-hub/src/merge.rs:83-108 | On every reachable Hub, by meaning: an empty session is idle with no urgency; otherwise the rollups are the most urgent values of its runs, by rank and case by case, and an absent urgency means every run says none |
| `MergeSpec.RestoreUndoes` | crates/fleet-hub/src/merge.rs:76-81 | Restoring a snapshot rebuilds the very same Hub, order included, so it undoes whatever was projected in between and every later operation behaves alike |
| `MergeSpec.UpdatesAreExact` | crates/fleet-hub/src/merge.rs:169-176 | An update list names exactly the listed sessions whose stored value changed, each once, in list order, with the new value |
| `MergeSpec.DeltasAreExact` | crates/fleet-hub/src/merge.rs:207-220 | Mute, unmute and solo broadcast exactly the changed sessions; a removal broadcasts the removal and then exactly the changed survivors; removing an unknown id does nothing |
| `MergeSpec.RepeatIsSilent` | crates/fleet-hub/src/merge.rs:301-432 | Repeating a mute, unmute, solo, focus or removal changes nothing and broadcasts nothing |
| `Effects.UpsertLands` | crates/fleet-hub/src/merge.rs:183-202 | What an upsert leaves, field by field: the reported title, runs, details and flags, rollups that speak for those runs, a badge moved by the session's own notifying, everybody else and a held session's place untouched |
| `Effects.RunLands` | crates/fleet-hub/src/merge.rs:235-254 | A run report replaces the first run under its id in its slot or goes to the end; the rest of the session but rollups and badge, everybody else and the order stand; the first event says which of the two it was |
| `Effects.RunGoes` | crates/fleet-hub/src/merge.rs:260-279 | A run removal leaves exactly the runs under other ids, in their order, or does nothing at all if there is none under this one |
| `Effects.FlagsLand` | crates/fleet-hub/src/merge.rs:301-386 | The flags each command leaves on every session, each badge moved by its own session's notifying, nothing else changed |
| `Effects.SessionGoes` | crates/fleet-hub/src/merge.rs:207-220 | A removal takes the session out of map and order; every survivor keeps all but a badge moved by its own notifying |
| `Effects.FocusLands` | crates/fleet-hub/src/merge.rs:425-432 | An acknowledgement clears one badge and changes nothing else |
| `MergeEngine.Engine.Snapshot` | crates/fleet-hub/src/merge.rs:76-81 | The sessions in insertion order |
| `MergeEngine.Engine.Restore` | crates/fleet-hub/src/merge.rs:442-449 | The state becomes the given list, verbatim, in its order |
| `MergeEngine.Engine.NotifyMap` | crates/fleet-hub/src/merge.rs:134-140 | One entry per session: whether it should notify now |
| `MergeEngine.Engine.ReconcileOneUnread` | crates/fleet-hub/src/merge.rs:161-167 | One session moves by its own notify edge, and the result says whether it changed |
| `MergeEngine.Engine.ReconcileUnreadFrom` | crates/fleet-hub/src/merge.rs:142-152 | Every session is rearmed for its edge since the recorded map; the returned set is exactly the sessions that changed |
| `MergeEngine.Engine.UpdatedEventsFor` | crates/fleet-hub/src/merge.rs:169-176 | Given the set of changed ids, the events are the exact ordered update list |
| `MergeEngine.Engine.UpsertSession` | crates/fleet-hub/src/merge.rs:183-202 | State and event are those of the specification step; the invariant is kept |
| `MergeEngine.Engine.RemoveSessionEvents` | crates/fleet-hub/src/merge.rs:207-220 | State and events are those of the specification step, survivors' rearming included |
| `MergeEngine.Engine.RemoveSession` | crates/fleet-hub/src/merge.rs:225-227 | Reconciles like the full removal but reports only the removal event, and only for a held id |
| `MergeEngine.Engine.UpsertRun` | crates/fleet-hub/src/merge.rs:235-254 | State and events are those of the specification step; unknown sessions are a no-op |
| `MergeEngine.Engine.RemoveRun` | crates/fleet-hub/src/merge.rs:260-279 | State and events are those of the specification step; an absent session or run is a no-op |
| `MergeEngine.Engine.ApplyMute` | crates/fleet-hub/src/merge.rs:309-328 | State and events are those of the specification step, early return included |
| `MergeEngine.Engine.ApplyUnmute` | crates/fleet-hub/src/merge.rs:333-351 | State and events are those of the specification step, early return included |
| `MergeEngine.Engine.ApplySolo` | crates/fleet-hub/src/merge.rs:364-386 | The two-pass flag flip is the one-shot edit of the specification step |
| `MergeEngine.Engine.ClearOtherSolos` | crates/fleet-hub/src/merge.rs:373-378 | Exactly the other sessions lose the solo flag, and the returned set is exactly those that had it |
| `MergeEngine.Engine.FinishFlagChange` | crates/fleet-hub/src/merge.rs:309-386 | After a flag edit, rearming and reporting complete the specification step |
| `MergeEngine.Engine.ApplyFocus` | crates/fleet-hub/src/merge.rs:425-432 | State and event are those of the specification step; a read or absent session is a no-op |
| `MergeEngine.TouchedOrFlipped` | crates/fleet-hub/src/merge.rs:309-386 | A session changed overall exactly when the flag edit or the rearming changed it |
| `MergeEngine.DropRunShrinks` | crates/fleet-hub/src/merge.rs:260-279 | The length test by which run removal decides "absent" is right |
| `Faces.InboxModel.Apply` | crates/fleet-host-core/src/view.rs:229-278 | The GUI reducer object performs the reducer step on sessions and order |
| `Faces.FacesFollowStep` | crates/fleet-hub/src/merge.rs:183-432 | Folding one operation's events into a copy of the Hub yields the Hub after it, for the GUI (sessions and order) and the CLI (sessions) |
| `Faces.FacesFollowRun` | crates/fleet-host-core/src/view.rs:229-301 | The same over every run |
| `Faces.SnapshotSynchronizes` | crates/fleet-host-core/src/view.rs:229-240 | A snapshot brings any face, whatever it held, to the Hub's state |
| `Faces.FacesReplicate` | crates/fleet-host-core/src/view.rs:229-301 | Whenever a face joins any run and whatever it held before, after its snapshot and the later broadcasts it holds exactly the Hub's sessions and order |
| `Faces.RedeliveryIsIdempotent` | crates/fleet-host-core/src/view.rs:229-278 | Receiving again the events of the operation a snapshot already reflects changes nothing, for the GUI (row order included) and the CLI |
| `Faces.RedeliveredRunIsIdempotent` | crates/fleet-cli/src/render.rs:187-234 | The same for any stretch of operations: hearing all their events again leaves the CLI's sessions as they are |
| `Faces.GuiCliAgree` | crates/fleet-cli/src/render.rs:187-234 | On arbitrary event streams, not only the Hub's, the two reducers agree on everything but the rollup state of empty sessions |
| `Faces.GuiCliAgreeOnEvent` | crates/fleet-cli/src/render.rs:187-234 | The same for one event |
| `Faces.EmptiedSessionShowsStaleRollup` | crates/fleet-host-core/src/view.rs:318-326 | The exception is real: between a run removal that empties a session and its paired update, the GUI keeps the old state while the CLI says idle |
| `Faces.GuiStaysLockStep` | crates/fleet-host-core/src/view.rs:229-278 | The GUI's order and map stay in lock-step on arbitrary event streams |
| `Cli.CliState.Apply` | crates/fleet-cli/src/render.rs:187-234 | The CLI reducer object performs the reducer step |
| `Cli.CliState.Rows` | crates/fleet-cli/src/render.rs:247-257 | One row per session, strictly ascending, whatever order the map is iterated in |
| `Cli.RowsAreUnique` | crates/fleet-cli/src/render.rs:144-163 | Only one row list exists for a session map |
| `Cli.RowsAreByUrgency` | crates/fleet-cli/src/render.rs:144-163 | Unmuted rows come first, then the more urgent, then the more pressing state, then by id |
| `Cli.RowsReadOff` | crates/fleet-cli/src/render.rs:144-163 | Without ranks: each row shows its session's fields; of two rows the muted one never comes first, then the one asking for less (approval, question, idle-done, nothing), then the one pressing less (waiting, error, working, done, idle, dead), then ids character by character |
| `Cli.CliApplyKeepsKeyed` | crates/fleet-cli/src/render.rs:187-234 | Every event keeps sessions filed under their own id |
| `Attention.StepUnread` | crates/fleet-hub/src/merge.rs:118-167 | After any operation each held session is unread exactly if it notifies and either just began to, or was unread and was not the one focused; edges caused by another session's solo, mute or removal included |
| `Attention.UnreadIsHistory` | crates/fleet-hub/src/merge.rs:118-167 | On every disciplined run a session is unread exactly if at some step it began to notify, has notified ever since, and was not focused since |
| `Attention.StepKeepsPolicy` | crates/fleet-hub/src/merge.rs:183-432 | A flag-preserving operation keeps: at most one session soloed, soloed implies not muted, unread implies notifying |
| `Attention.RunKeepsPolicy` | crates/fleet-hub/src/merge.rs:183-432 | The same over every disciplined run |
| `Attention.NotifyRulesDiffer` | crates/fleet-host-core/src/mute.rs:72-98 | The Hub's notify rule and host-core's differ exactly on a waiting session both muted and soloed |
| `Attention.ConflictIsReachable` | crates/fleet-hub/src/merge.rs:183-202 | From any state, one new waiting session upserted with both flags is muted and soloed at the Hub, where the two rules differ |
| `Attention.NotifyRulesAgree` | crates/fleet-host-core/src/mute.rs:72-98 | No disciplined run reaches such a session, so they agree |
| `Attention.MuteUnmuteRearms` | crates/fleet-hub/src/merge.rs:309-351 | Muting and unmuting an acknowledged notifying session leaves it as before but unread again |
| `View.WaitingConfidenceAndSince` | crates/fleet-host-core/src/view.rs:356-373 | The one-pass loop computes the worst confidence and the earliest stamp |
| `View.EarliestSinceMeaning` | crates/fleet-host-core/src/view.rs:356-373 | The stamp shown is carried by a waiting run and no waiting run's is earlier |
| `View.TabShows` | crates/fleet-host-core/src/view.rs:328-393 | Every field of a tab: identity, title, state and urgency of the session, the number of its runs, the worst confidence and earliest stamp of its waiting runs, the last message of its first run in the rolled-up state (else of its first run), its flags |
| `Rail.ViewIsViewTabs` | crates/fleet-host-core/src/view.rs:293-301 | The view shows every session once, as it is, in the Hub's order, and nothing else |
| `View.SortTabs` | crates/fleet-host-core/src/sort.rs:114-121 | The array is sorted in place: a permutation, in descending unread/urgency/age order, that never reorders ties |
| `View.SortTabsIsStable` | crates/fleet-host-core/src/sort.rs:99-121 | The stable sort exists: a permutation in that order that never reorders ties |
| `View.SortedRowsInOrder` | crates/fleet-host-core/src/sort.rs:47-121 | Written out, without the comparison: no read row stands ahead of an unread one; with equal flags urgency never rises (approval, question, idle-done, explicit none, absent); with equal urgency only rows stamped no later stand ahead of one whose stamp the clock has passed |
| `View.EqualRowsKeepOrder` | crates/fleet-host-core/src/sort.rs:99-121 | Rows with equal flags, urgency and stamp, or both without a passed stamp, keep their order |
| `View.SortedTabsIsUnique` | crates/fleet-host-core/src/sort.rs:99-121 | Those clauses determine the list: whatever algorithm keeps them returns the same one |
| `View.ClockReshuffles` | crates/fleet-host-core/src/sort.rs:70-121 | Moving the clock forward (or getting one at all) changes the order if and only if some row whose stamp the clock passes stands behind a row with equal unread flag and urgency that carries no stamp or a later one |
| `View.ClockNeverReshuffles` | crates/fleet-host-core/src/sort.rs:70-121 | So any two instants after every waiting stamp give the same order |
| `View.FutureStampReshuffles` | crates/fleet-host-core/src/sort.rs:70-89 | And whenever the clock passes the stamp of a row behind an unstamped equal, the two swap |
| `Rail.RenderShows` | crates/fleet-host/src/render.rs:69-113 | Rendering a Hub gives one row per session with its flags, the ping rule of host-core, and both counts as set sizes |
| `Rail.RenderedInOrder` | crates/fleet-host/src/render.rs:69-113 | The rendered rows are the sorted tabs one for one, and stand in the written-out order |
| `Rail.CountIsCardinality` | crates/fleet-host/src/render.rs:101-113 | A row count is the number of distinct sessions counted |
| `Rail.StepIsEditThenRearm` | crates/fleet-hub/src/merge.rs:207-432 | Mute, unmute, solo, focus and removal all have the shape "edit, then rearm against the old notify map" |
| `Rail.LocalFollowsHub` | crates/fleet-host/ui/main.js:184-261 | Whatever the Hub's state, the optimistic rows carry its next flags and badges exactly and ping by its rule |
| `Rail.LocalPredictsHub` | crates/fleet-host/ui/main.js:184-261 | The optimistic inbox shows the Hub after the operation if and only if the action takes a flag off every waiting session that is both muted and soloed, and does not solo an id the Hub does not hold while some session is soloed |
| `Rail.ConflictsRemain` | crates/fleet-hub/src/merge.rs:309-432 | A session is both muted and soloed after an operation exactly if it was before and the operation does not touch it, told from the state before |
| `Rail.RailPredictsHub` | crates/fleet-host/ui/main.js:184-261 | On every state a disciplined run reaches the prediction is exact, soloing an id the Hub does not hold aside |
| `Rail.LaggingSoloMispredicts` | crates/fleet-host/ui/main.js:244-255 | The rail may lag: soloing a row whose session is already gone at the Hub shows every other solo as cleared while the Hub keeps it, until the next push |
| `Rail.LocalKeepsOrder` | crates/fleet-host/ui/main.js:184-261 | No optimistic mutation moves a row: all keep their places, or the dismissed one goes and the others close up in order |
| `Optimistic.RailPage.Begin` | crates/fleet-host/ui/main.js:1274-1281 | Starting an action is the start step: refused while a conflicting action is in flight, without a row for the session, or without a live link |
| `Optimistic.RailPage.Finish` | crates/fleet-host/ui/main.js:1282-1294 | Finishing is the success or failure step: roll back only if the revision is unchanged |
| `Optimistic.RailPage.RemoveInboxSession` | crates/fleet-host/ui/main.js:184-188 | The row-drop step, for both of its callers: a confirmed dismissal and a closed server |
| `Optimistic.PendingIsHistory` | crates/fleet-host/ui/main.js:1274-1295 | An action is in flight exactly if its last accepted start has not finished; what it remembers is the inbox just before it and the revision just after |
| `Optimistic.ClickTakesEffect` | crates/fleet-host/ui/main.js:1477-1511 | A click takes effect exactly if the link is up, its session has a row, no acknowledgement of it is in flight and, unless it is one itself, no mute or solo of it is; then the inbox, revision and history move, otherwise nothing does |
| `Optimistic.RevisionGuards` | crates/fleet-host/ui/main.js:190-193 | Revisions only grow, and an unchanged revision means the inbox and the last push are unchanged |
| `Optimistic.FailureRestoresOrLeaves` | crates/fleet-host/ui/main.js:1274-1295 | A failing action restores exactly its pre-action inbox if nothing replaced the inbox since, and otherwise leaves it alone |
| `Optimistic.InboxDerivesFromLastPush` | crates/fleet-host/ui/main.js:190-193 | Under every interleaving the visible inbox is the last pushed one with the local mutations since applied, minus those a failure rolled back |
| `Optimistic.InForceIsSent` | crates/fleet-host/ui/main.js:1274-1295 | Under every interleaving, the mutations the inbox shows are those the Hub was told (accepted and not failed, or confirmed dismissals) if and only if, since the last push, no action failed after the inbox had moved on and no server was closed |
| `Optimistic.StrandedFailureMisleads` | crates/fleet-host/ui/main.js:1274-1295 | The condition is needed: two sessions are muted one after the other and the first request fails; the rail still shows both muted, which is not what the Hub holds |
| `Optimistic.AcceptedPredictsHub` | crates/fleet-host/ui/main.js:1477-1511 | Under those guards the prediction is exact if and only if the action takes a flag off every waiting session that is both muted and soloed |
| `Optimistic.RailRunsAhead` | crates/fleet-host/ui/main.js:184-261 | Under every interleaving in which nothing was stranded or closed since the last push: if that push showed the Hub after a disciplined run, the visible inbox shows the Hub after that run and everything it was told since |
| `Optimistic.ServerList.BeginRefresh` | crates/fleet-host/ui/main.js:1534-1536 | A refresh takes a new, larger generation |
| `Optimistic.ServerList.FinishRefresh` | crates/fleet-host/ui/main.js:1544-1545 | A reply is the reply step: ignored unless it is the newest refresh's |
| `Optimistic.ListIsNewestInTime` | crates/fleet-host/ui/main.js:1534-1545 | Under every interleaving of refreshes and replies, each answered at most once: the list shown is that of the greatest refresh that replied while it was the newest, and the first list if none did |
| `Notify.ViewTransition` | crates/fleet-host-core/src/notify.rs:296-331 | The two loops produce the specified outcome list |
| `Notify.OutcomesAreExact` | crates/fleet-host-core/src/notify.rs:296-331 | Each session's one outcome is reported exactly if it is not a no-op; nothing else is, and no session is named twice |
| `Notify.FiresSound` | crates/fleet-host-core/src/notify.rs:145-155 | Every fire is about a session of the new view and carries the approval or question sound exactly if the session's new urgency is that |
| `Notify.TransitionMeaning` | crates/fleet-host-core/src/notify.rs:245-331 | From any outstanding set: an id is outstanding afterwards iff it fired, or was and was not resolved; a session already notifying fires again exactly on an urgency change |
| `Notify.PendingIsConserved` | crates/fleet-host-core/src/notify.rs:245-331 | Along any sequence of views from the empty one, folding the outcomes gives exactly the set that should notify |
| `Notify.BadgeCountsPending` | crates/fleet-host/src/render.rs:101-113 | The badge number is the size of that set |
| `Notify.LinkPendingIsExact` | crates/fleet-host/src/hub_client.rs:122-147 | With the first snapshot silent: the outcomes leave outstanding exactly the notifying sessions not inherited quietly from the first view, over any event stream |
| `Notify.LinkPendingIsNotifying` | crates/fleet-host/src/hub_client.rs:122-147 | So what they leave outstanding is always a subset of what the badge counts |
| `Notify.HubLink.OnEvent` | crates/fleet-host/src/hub_client.rs:110-137 | One event through the loop: outcomes are derived from the views before and after, unless it is the very first snapshot |
| `Notify.HubLink.Deliver` | crates/fleet-host/src/hub_client.rs:423-437 | Fires are shown; nothing else is acted on |
| `Notify.ShownIsHistory` | crates/fleet-host/src/hub_client.rs:423-437 | What is on the screen is exactly what ever fired |
| `Notify.StuckExactly` | crates/fleet-host-core/src/notify.rs:116-130 | Everything outstanding is shown; beyond that the screen holds exactly the sessions that fired and have stopped to notify |
| `Notify.ViewPendingIsHostNotifies` | crates/fleet-host-core/src/mute.rs:72-98 | A tab pings exactly if its session notifies by host-core's rule |
| `Persist.EventLog.Append` | crates/fleet-hub/src/persist.rs:174-184 | A row is appended under the next sequence number, or the append fails with the log unchanged |
| `Persist.StateStore.LogAndApply` | crates/fleet-hub/src/persist.rs:382-385 | Append first, project second; a failed append changes nothing |
| `Persist.StateStore.ApplySessionUpsert` | crates/fleet-hub/src/persist.rs:388-404 | The Hub's flags of a held session override the reporter's |
| `Persist.StateStore.ApplyRunUpsert` | crates/fleet-hub/src/persist.rs:426-438 | An unknown session logs nothing; otherwise one row |
| `Persist.StateStore.AppendSessions` | crates/fleet-hub/src/persist.rs:552-563 | Rows are written for the updates in order up to the first failure |
| `Persist.StateStore.ApplyFlagChange` | crates/fleet-hub/src/persist.rs:547-565 | Project, then append every update; on a failed append memory is put back and no event is returned |
| `Persist.StateStore.ApplyFocus` | crates/fleet-hub/src/persist.rs:579-596 | Focus acknowledges in memory whether or not its row was written |
| `Persist.RestartLosesOnlyBadges` | crates/fleet-hub/src/persist.rs:205-276 | On a healthy disk, over every run: a restart rebuilds the same sessions, order and fields, except that an unread badge may be missing; it never invents one |
| `Persist.StepExact` | crates/fleet-hub/src/persist.rs:205-276 | A faithful log stays faithful if and only if the operation is not an unmute of the only soloed session while it is waiting, unmuted and unread |
| `Persist.LosingUnmuteUnderPolicy` | crates/fleet-hub/src/persist.rs:547-565 | On states disciplined runs reach, the losing operation is simply un-soloing a session still unread |
| `Persist.BadgeLossIsReachable` | crates/fleet-hub/src/persist.rs:547-565 | Three operations reach the loss: live the session asks for attention, after a restart it does not |
| `Persist.FailedFlagDiverges` | crates/fleet-hub/src/persist.rs:547-565 | A flag command whose append fails leaves log and memory in agreement if and only if no row of it had been written |
| `Persist.FailedRowIsClean` | crates/fleet-hub/src/persist.rs:382-438 | A reporter operation whose append fails changes neither log nor memory |
| `Persist.FocusDivergesIfUnwritten` | crates/fleet-hub/src/persist.rs:579-596 | Focus never reports failure; log and memory agree afterwards if and only if its row was written |
| `Persist.StorePreservesFlags` | crates/fleet-hub/src/persist.rs:388-404 | What reaches the engine keeps the Hub's flags unless a new session arrives with flags of its own |
| `Persist.ReportLands` | crates/fleet-hub/src/persist.rs:388-404 | What a logged report leaves: all it says of title, runs and details, rollups by cases from its runs, but a held session's mute, solo and badge (moved only by its notifying); everybody else and a held session's place untouched |
| `Persist.StoreKeepsPolicy` | crates/fleet-hub/src/persist.rs:388-404 | So the store keeps the attention policy, and the notify rules agreeing, over every run in which new sessions arrive without flags |
| `Restart.StepMissing` | crates/fleet-hub/src/persist.rs:205-276 | One healthy operation, from any state a log can be behind by badges: afterwards a restart would miss a badge if and only if the operation is its losing unmute, or it was missing before and the operation did not decide it afresh (a report, acknowledgement or effective flag command of the session, or a run row or removal starting or ending its notifying) |
| `Restart.MissingIsHistory` | crates/fleet-hub/src/persist.rs:205-276 | After any run on a healthy disk, a restart misses exactly the badges whose last losing unmute was followed by no operation deciding them afresh |
| `Restart.RestartIsExact` | crates/fleet-hub/src/persist.rs:205-276 | A restart after any run is exact if and only if every lost badge was decided afresh since |
| `Restart.ReportMends` | crates/fleet-hub/src/persist.rs:205-276 | A report of the session mends its badge, whatever came before and whatever the report says |
| `Reclaim.ReclaimTable.Commit` | crates/fleet-hub/src/reclaim.rs:170-188 | No mark is ever lowered or dropped, and the recorded stamp is not later than the mark |
| `Reclaim.ReclaimTable.Admit` | crates/fleet-hub/src/reclaim.rs:156-203 | The decision and the new marks |
| `Reclaim.AdmitMeaning` | crates/fleet-hub/src/reclaim.rs:156-203 | Exactly the stamps later (by epoch, then sequence) than the mark are admitted, and then become the mark |
| `Reclaim.GateKeepsLastWriter` | crates/fleet-hub/src/reclaim.rs:156-203 | After any arrivals, what was let through last for an id is a delta no received one is later than |
| `Reclaim.GateConverges` | crates/fleet-hub/src/reclaim.rs:156-203 | Any reordering or redelivery of the same deltas lets the same run through last |
| `Reclaim.GatedStore.ApplyRunUpsertSeq` | crates/fleet-hub/src/persist.rs:453-485 | The gated upsert: the mark moves and the index records the id before the row is appended |
| `Reclaim.GatedStore.ApplySessionRemove` | crates/fleet-hub/src/persist.rs:407-422 | An unknown session logs nothing; otherwise one row, and with it the session's marks and index entry go |
| `Reclaim.GatedStore.ApplyRunRemove` | crates/fleet-hub/src/persist.rs:600-638 | An absent session or run logs nothing; otherwise one row, and the run's mark goes unless another run of the session shares it |
| `Reclaim.StepKeepsMark` | crates/fleet-hub/src/persist.rs:407-485 | A step that does not forget a mark keeps it or moves it later |
| `Reclaim.RedeliveryEffect` | crates/fleet-hub/src/persist.rs:453-485 | A delta takes effect if and only if its first append succeeded, and then once: after any steps that do not forget its mark, delivering it again, to any session, changes nothing |
| `Reclaim.ReadmittedIffForgotten` | crates/fleet-hub/src/persist.rs:332-358 | A delta its mark already covers is let through again, by a session still held, exactly when the step forgot the mark: a written removal of its session or run, or a restart |
| `Reclaim.RestartReadmits` | crates/fleet-hub/src/persist.rs:332-358 | After a restart any delta to a restored session is let through again, also one whose append had failed; the index names exactly the durable ids of its runs |
| `Reclaim.MarksGoWithTheirSession` | crates/fleet-hub/src/persist.rs:407-422 | A written session removal takes along the mark of every delta the session let through, however long ago, unless forgotten before |
| `Reclaim.MarkGoesUnlessShared` | crates/fleet-hub/src/persist.rs:600-638 | A written run removal takes along the mark under the run's durable id exactly if no run left in the session has the same one; no other mark moves |
| `Reclaim.HubHoldsLastWriter` | crates/fleet-hub/src/persist.rs:426-485 | After any deliveries to a session the Hub's own run list holds, for every durable id, the run of a delta no delivered one is later than; other runs are untouched |
| `Reclaim.HubConverges` | crates/fleet-hub/src/persist.rs:426-485 | So any reordering or redelivery of the same deltas leaves the Hub holding the same run under every run id |
| `Server.ApplyFollows` | crates/fleet-hub/src/server.rs:299-318 | A store operation either fails saying nothing, or its events carry a face to the new Hub |
| `Server.BatchEffect` | crates/fleet-hub/src/server.rs:345-358 | A batch of removals changes the Hub exactly when it wrote a row |
| `Server.BatchMeetsDisk` | crates/fleet-hub/src/server.rs:345-358 | A batch fails exactly when it needs more rows than fit, and writes as many as fit |
| `Server.IndependentNeedOneEach` | crates/fleet-hub/src/persist.rs:653-696 | Removals of distinct, present targets, as one pass builds them, need one row each |
| `Server.StepKeepsSync` | crates/fleet-hub/src/server.rs:299-380 | A step keeps the published snapshot and every face equal to the Hub if and only if it is not a garbage collection with room for some of the rows it needs but not for all |
| `Server.PassLeavesFacesBehind` | crates/fleet-hub/src/server.rs:345-358 | For a pass over distinct, present targets: in sync afterwards if and only if none or all of its removals fit |
| `Server.PartialCollectionIsReachable` | crates/fleet-hub/src/server.rs:345-358 | Such a step is reachable: the collected session is gone at the Hub and stays on the face |
| `Server.ServerStaysInSync` | crates/fleet-hub/src/server.rs:299-380 | Over every run without such a step, with subscribers joining and appends failing anywhere, every face holds the Hub's state |
| `Catchup.HalfWay` | crates/fleet-hub/src/server.rs:345-358 | Right after a collection the disk cut short, the Hub has moved on by a proper, non-empty part of the removals, taken from the front, and the published snapshot and every face still show it from before |
| `Catchup.StepCatchesUp` | crates/fleet-hub/src/server.rs:299-324 | For any state of any connected face: a later step sets a session right on it exactly when the step commits and one of its events states the session |
| `Catchup.FaceCatchesUp` | crates/fleet-hub/src/server.rs:299-324 | Over any run in which the face does not rejoin and no further collection stops half-way: it is wrong about a session exactly if it was before and no broadcast has stated it |
| `Catchup.AfterHalfWay` | crates/fleet-hub/src/server.rs:345-358 | After a half-way collection and any such run, a face is wrong about exactly the sessions the collected removals changed and no broadcast has stated since |
| `Catchup.RunPublishes` | crates/fleet-hub/src/server.rs:299-324 | Over any run in which no further collection stops half-way: once a step has committed the published snapshot is the Hub, and without a commit neither changes |
| `Catchup.RejoinRepairsIff` | crates/fleet-hub/src/server.rs:371-380 | A face that rejoins after a half-way collection holds the Hub, rows and order, if and only if some step has committed in between; otherwise it holds the Hub from before the collection |
| `Bridge.BridgeRegistry.Register` | crates/fleet-host/src/bridge.rs:185-222 | Fresh generation, updated entry, and the change flag |
| `Bridge.BridgeRegistry.Unregister` | crates/fleet-host/src/bridge.rs:224-249 | Only the last live connection's drop removes the entry |
| `Bridge.BridgeRegistry.Forget` | crates/fleet-host/src/bridge.rs:119-125 | The entry goes, whatever its connections |
| `Bridge.BridgeRegistry.Touch` | crates/fleet-host/src/bridge.rs:130-134 | Only the last-heard instant moves |
| `Bridge.BridgeRegistry.ReapStale` | crates/fleet-host/src/bridge.rs:138-153 | Exactly the entries silent for longer than the timeout go, and exactly their ids are returned |
| `Bridge.BridgeRegistry.Rename` | crates/fleet-host/src/bridge.rs:163-171 | The name is set and pinned; the answer says whether the server exists |
| `Bridge.BridgeRegistry.Servers` | crates/fleet-host/src/bridge.rs:76-90 | One row per entry, in id order, whatever order the map is iterated in |
| `Bridge.BridgeRegistry.CommandTarget` | crates/fleet-host/src/bridge.rs:95-114 | The newest live connection, if any |
| `Bridge.SignalsAreExact` | crates/fleet-host/src/bridge.rs:119-249 | Each reported change holds if and only if what the list shows changed |
| `Bridge.ListingsReflectVisible` | crates/fleet-host/src/bridge.rs:76-90 | Lists are equal exactly when the visible entries are |
| `Bridge.RegistryIsFaithful` | crates/fleet-host/src/bridge.rs:119-249 | Under any interleaving with arbitrarily late drops, the held connections are exactly those opened in the trace and not ended since |
| `Bridge.ReapDropsTheSilent` | crates/fleet-host/src/bridge.rs:138-153 | A reap drops exactly the listed servers whose last registration or touch in the trace plus the timeout is before its instant, and leaves the others as they were |
| `Bridge.ListedIffLive` | crates/fleet-host/src/bridge.rs:119-249 | A server is listed exactly while some connection of it is live |
| `Bridge.StaleDropIsHarmless` | crates/fleet-host/src/bridge.rs:224-249 | Dropping a connection that is not live changes nothing |
| `Bridge.LateDropAfterReopen` | crates/fleet-host/src/bridge.rs:119-249 | In particular after an explicit close and re-registration |
| `Bridge.GenerationsNeverRecur` | crates/fleet-host/src/bridge.rs:185-222 | Later registrations get larger generations |
| `Bridge.RenamesStick` | crates/fleet-host/src/bridge.rs:163-222 | The shown name is the user's last rename of the current entry if there is one, else the latest reported name; the url is the latest reported one |
| `Bridge.ListingReadOff` | crates/fleet-host/src/bridge.rs:76-90 | The listing read off the trace: live servers in id order, character by character, each with its newest url and its given or newest reported name |
| `Mux.EditorLabelFor` | crates/fleet-host/src/mux.rs:91-102 | The loop produces the prefix and the escaped bytes |
| `Mux.LabelsDecode` | crates/fleet-host/src/mux.rs:91-102 | An independent reader inverts the escaping on every byte string, so distinct ids never share a label |
| `Mux.MergedServers` | crates/fleet-host/src/mux.rs:294-304 | One row per id, in id order, the first listed occurrence winning |
| `Mux.SpawnedWins` | crates/fleet-host/src/mux.rs:294-304 | A spawned row wins over a registered one |
| `Palette.ComputeFuzzyScore` | crates/fleet-host-core/src/palette.rs:103-141 | The early-exit loop computes the score of the full scan |
| `Palette.FuzzyScoreMeaning` | crates/fleet-host-core/src/palette.rs:103-141 | A score exists iff the query is a subsequence; for a non-empty query it lies in 0..10+5(n-1), and the top is reached iff the query is a prefix |
| `Palette.FuzzyScoreIsLeftmost` | crates/fleet-host-core/src/palette.rs:103-141 | The score is that of the spelling whose every character is as early as it can be: ten points for starting the target, five for each character right after the last |
| `Palette.TabFuzzyScore` | crates/fleet-host-core/src/palette.rs:150-167 | The best score over title and working directories |
| `Palette.BestScoreMeaning` | crates/fleet-host-core/src/palette.rs:150-167 | A best score exists iff some field matches; it is one field's score and no field's is higher |
| `Palette.QueryPalette` | crates/fleet-host-core/src/palette.rs:189-217 | The stable sort of the matching candidates |
| `Palette.PaletteMeaning` | crates/fleet-host-core/src/palette.rs:189-217 | Exactly the tabs with a matching field are listed, best score first |
| `Palette.PaletteRows` | crates/fleet-host-core/src/palette.rs:189-217 | Each row shows its tab and scores its best field, twenty more if unread; the higher score comes first and, of equal scores, the tab that stands first |
| `Palette.UnreadIndicesMeaning` | crates/fleet-host-core/src/palette.rs:230-236 | Exactly the unread tabs, in view order |
| `Palette.FindNextUnread` | crates/fleet-host-core/src/focus.rs:70-87 | The wrapping scan finds the first unread tab after the cursor |
| `Palette.CyclesAgree` | crates/fleet-host-core/src/palette.rs:252-262 | From the p-th unread tab both cycling algorithms go to the same tab |
| `Palette.CyclesStartAlike` | crates/fleet-host-core/src/focus.rs:70-87 | Without a cursor both start at the first unread tab, or both find none |
| `Palette.FullCycleVisitsEachOnce` | crates/fleet-host-core/src/palette.rs:252-262 | From any cursor, iterated as often as there are unread tabs, both visit the same tabs: each unread one exactly once, in cyclic view order |
| `Inject.InjectClaudeHooks` | crates/fleet-cli/src/init.rs:251-288 | The loop produces the specified settings tree |
| `Inject.InjectClaudeTwice` | crates/fleet-cli/src/init.rs:251-288 | Injecting into the result changes nothing, for every settings tree injection accepts and even if the relay changed in between |
| `Inject.FreshClaudeIsMarked` | crates/fleet-cli/src/init.rs:229-288 | A fresh settings file ends up recognised as managed |
| `Inject.EntriesMeaning` | crates/fleet-cli/src/init.rs:251-288 | Each managed event gets Fleet's entry appended to its own list; every other field is untouched |
| `Inject.InjectionKeepsHooks` | crates/fleet-cli/src/init.rs:183-288 | If injection modifies: for each of the five events the old hook list is a proper prefix of the new one, followed by exactly one entry, Fleet's with marker and relay (a list that is none is left alone); every other field of hook, hooks and settings is as before. It modifies exactly if no hook carries the marker yet, and otherwise the tree is the same |
| `Inject.InjectCodexConfig` | crates/fleet-cli/src/init.rs:430-482 | The three in-place edits produce the specified table and modified flag |
| `Inject.InjectCodexTwice` | crates/fleet-cli/src/init.rs:430-482 | A second injection changes nothing and says so, for every table |
| `Inject.GroupsMeaning` | crates/fleet-cli/src/init.rs:459-479 | Afterwards no managed event lacks Fleet's group; an event that lacked it has its old groups and then exactly that one, one that had it is unchanged, and no other field changes |
| `Inject.CodexKeepsGroups` | crates/fleet-cli/src/init.rs:430-482 | Both flags are on; for each of the seven events the old group list is a proper prefix of the new one, followed by exactly Fleet's group, or unchanged if the group was there; every other field of every section is as before |
| `Inject.CodexAnswerIsExact` | crates/fleet-cli/src/init.rs:430-482 | The modified flag is raised if and only if the table is another one afterwards |
| `Init.FileTree.MaybeBackup` | crates/fleet-cli/src/init.rs:498-511 | The first pre-Fleet content is kept; a later call does not overwrite it |
| `Init.FileTree.RewriteConfig` | crates/fleet-cli/src/init.rs:540-627 | Back up, write and record once |
| `Init.FileTree.Init` | crates/fleet-cli/src/init.rs:540-627 | The step-by-step writes and directory creations have the specified effect, early failures included |
| `Init.FileTree.Uninit` | crates/fleet-cli/src/init.rs:631-677 | The entry-by-entry undo has the specified effect |
| `Init.InitKeepsConfigs` | crates/fleet-cli/src/init.rs:540-627 | Whether init goes through or stops half-way: each config is left alone, or keeps everything of the user's with the first content ever replaced in the backup, and no other file of theirs is touched |
| `Init.InitIsIdempotent` | crates/fleet-cli/src/init.rs:540-627 | A second init changes no file and needs no new directory, whether or not the first went through and whether or not the reporter socket moved |
| `Init.InitTimesIsOnce` | crates/fleet-cli/src/init.rs:540-627 | Any number of runs, with whatever relays, leaves what the first leaves |
| `Init.UninitRestores` | crates/fleet-cli/src/init.rs:540-677 | From any files without a manifest, one or more inits and then uninit give back exactly the original files if and only if no rewritten config already had a foreign backup and, when the Codex config does not parse, Claude's settings needed no writing |
| `Init.CleanStartIsReversible` | crates/fleet-cli/src/init.rs:540-677 | With parseable configs and no prior backups it always restores |
| `Init.DirectoriesStay` | crates/fleet-cli/src/init.rs:62-68 | Directories are never taken back: they are as before exactly when every directory init makes sure of was there |

In `Palette.FuzzyScoreMeaning`, n is the length of the query.

## Left out

- Transport and windows: sockets, Tauri glue, menus, webviews, DOM rendering, logging, the probe server. They hold no state property of their own.
- The lockfile: best-effort by its own account; only sequential trivia would remain.
- Ids, titles and paths are opaque; the descriptive fields no operation reads (server, location, agent kind, glyphs, `updated_at`, schema version, unknown extra fields) are folded into one `details` text.
- Time stamps are abstract instants, present or absent; parsing them, and ages beyond machine integers, are not modelled. Earlier means smaller, where the code compares UTC text.
- Case folding: palette queries and targets are taken as already folded. JSON and TOML text is a parsed tree plus a layout.
- Notification titles, bodies, sound files and window titles.
- Which runs and sessions a garbage collection picks: any list of removals is allowed, so the age tests in `reap_dead` and `sweep_expired_sessions` do not matter.
- Corrupt or unknown log rows: replay skips them with a warning; the model's log holds whole rows only.
- `tab_transition`, which the host does not call; the view-level transition is the one modelled.
- A desktop notification the user dismisses, one the system refuses to show, and two sessions sharing one notification because their id hashes collide.
- An action or dismissal reaches the Hub some time after the click; the results about the rail count it as told when it is accepted or confirmed, and compare with the Hub that has applied it. One still on its way when a push arrives is not counted after that push.
- A dismissal or retry in flight also blocks the rail's row actions; the model allows more interleavings.
- A subscriber that falls behind the broadcast buffer: the model delivers every event.
- Commands that address a run rather than a session: the server looks the owner up and continues as for the session.
- Unsigned overflow of revisions, generations, epochs and sequence numbers.
- File-system failures during init and uninit other than a config or manifest that does not parse; a manifest left over from earlier is allowed in the idempotence results but not in the restore results.
- `Init.UninitRestores`: byte identity is identity of parsed tree and layout, and of whole contents for files Fleet does not parse.
- The rest of `refreshServers`: pruning spawned entries and choosing a selection after the guard.
- `focus_window`, focus strategies, `cycle_next`, the editor descriptor table: one-branch tables.
- `View.SortTabs`: the library's stable sort is an insertion sort here; `View.SortedTabsIsUnique` shows the choice cannot matter.
- `Bridge.BridgeRegistry.Servers`: rows are inserted in place instead of sorted at the end, as in `Mux.MergedServers`; the result is the unique sorted list either way.
- Mutex poisoning and the interleaving inside one registry call: each call is one step.
