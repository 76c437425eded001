# Verified model of the delivery and execution core

Agents Router decides, on the user's own machine, which messages of coding agents go to which chat and
which chat replies may start agent work. This project models the parts of the program that make those
decisions durable and proves what they guarantee over every run.

| files | what they hold |
|---|---|
| `ResponseSurfaceLedger`, `ResponseSurfaceRuns`, `ResponseSurfaceAnswers`, `ResponseSurfaceRecovery`, `ProviderInbound`, `ProviderAnswers` | the ledger of response surfaces and inbound events, an exactly-once claim protocol that survives failed and half-finished saves; recovery after a restart; the two ways in which a chat reply claims its event |
| `DeliverySafety`, `DeliverySafetyRuns` | the guard in front of deliveries: sliding windows, storm detection, the latched pause; its refinement of a guard that forgets nothing |
| `BridgeBindingLedger`, `BridgeRuns`, `BridgeAnswers`, `BridgeControl`, `ControlAnswers` | rooms bound to project folders, threads bound to sessions, the once-only project prompt; the chat commands that change them |
| `Router`, `TargetResolution`, `RouteMatching`, `RoutingPass`, `PassLedger`, `RoutingRuns` | where a signal is delivered and when every conversation gets one target, the nested loops of one routing pass, what a pass does to the bridge ledger, and what holds for a whole pass |
| `ChatCommands`, `ChatAnswers`, `LocalIntegrations`, `SignalPreview`, `Service` | the command parser, the hook merge into other tools' settings, answer previews, escaping |
| `Basics`, `Text`, `ProjectPaths` | shared vocabulary: lists used as tables, white space and trimming, composite keys, path components |

How it is written. Objects that the program updates in place are classes, and each method is proved equal to
a function from the old state to the new state and the answer. Over those functions the lemmas first show that
a list of records behaves as one small independent state machine per key, and then prove the run theorems by
induction over the machines. A run is a sequence of stored states with one step between neighbours. For the
response surface ledger a step also says how its save ended (completed, failed before the rename, or stopped
after the rename), which makes every prefix of a run a possible crash and every step a reload.

Conventions.

- Times are integers that count nanoseconds. Only the guard's lemmas need a clock that never runs backwards.
- A digest is represented by the values it is taken over. For event digests
  `ResponseSurfaceRuns.DigestInputIsInjective` shows that the hashed bytes determine those values as long as
  none of them holds a zero byte.
- New surface ids are parameters, assumed to be unused. The status recorder is never called with the claimed status,
  as its callers (`src/response_surface_ledger.rs:455-489`) never do.
- White space is the Unicode White_Space property; paths are compared component by component.
- The modules named `...Answers`, `RouteMatching` and the second half of `ProjectPaths` say in plain terms what the
  deciding functions mean: by the fields of the arguments and records, by words, by texts of paths, by numbers.
- What lies outside is a parameter: the clock, whether a save completes, whether a folder exists, whether a
  message addresses the bot, how a provider answers, whether a provider has a static target.

Where the code allows more or less than one would expect, the model follows the code:

- `close_surface` closes open surfaces only. An expired one, which only older files can hold, stays active.
- Delivery keys are fields joined by line breaks, so an id that holds a line break can make two conversations
  share one target. `TargetResolution.NewlinesMergeRooms` gives such a ledger, and
  `TargetResolution.OneTargetPerConversation` the exact condition under which every conversation gets its target:
  the keys of the considered rooms tell their conversations apart. Line-break-free account and conversation ids
  are enough.
- A conversation target names no account. `TargetResolution.AccountsGetOneTargetTwice` gives a ledger for which one
  conversation is targeted twice, and `TargetResolution.TargetedTwiceIffAccountsShare` says exactly when that happens.
- A prompt in `/new` that starts with a slash and has several words is read as a path and a prompt, so it is not typable.

## Model

| member | source | states |
|---|---|---|
| ResponseSurfaceLedger.Ledger.CreateSurfaceAt | src/response_surface_ledger.rs:298-350 | reuses the active surface of the thread if the binding is the same, refuses another binding, otherwise appends an open surface and saves; every error path |
| ResponseSurfaceLedger.Ledger.LookupSurfaceAt | src/response_surface_ledger.rs:352-379 | the last record of the thread decides between hit, closed and miss |
| ResponseSurfaceLedger.Ledger.CloseSurfaceById | src/response_surface_ledger.rs:381-399 | an open surface becomes closed and is saved; anything else changes nothing |
| ResponseSurfaceLedger.Ledger.ClaimInboundEventAt | src/response_surface_ledger.rs:401-453 | an unknown event is appended as claimed and saved; a known one is answered as processing or as processed and nothing changes |
| ResponseSurfaceLedger.Ledger.ReleaseInboundEventClaimAt | src/response_surface_ledger.rs:491-517 | only the claimed record of this event and this surface is removed |
| ResponseSurfaceLedger.Ledger.RecordContinuationTurnAt | src/response_surface_ledger.rs:519-549 | a turn is recorded for one surface; the same again is no change, another surface is an error |
| ResponseSurfaceLedger.Ledger.RecordInboundEventStatusByHashAt | src/response_surface_ledger.rs:609-653 | a terminal status for an existing, unfinished event of this surface; five ways to refuse |
| ResponseSurfaceLedger.Ledger.RecordInboundEventStatusAt | src/response_surface_ledger.rs:655-722 | advances an event of this surface that is not finished; only `Processed` may create a record |
| ResponseSurfaceLedger.LedgerStore.Update | src/response_surface_ledger.rs:757-764 | one update is one step from file to file: reload, apply, and the new contents are in place unless the save failed before its rename |
| ResponseSurfaceRuns.DigestInputIsInjective | src/response_surface_ledger.rs:935-958 | the hashed bytes are equal exactly for equal fields, if no field holds a zero byte |
| ResponseSurfaceRuns.EventsRefineMachines | src/response_surface_ledger.rs:401-722 | every operation acts on the event list as one machine per event key and keeps keys unique |
| ResponseSurfaceRuns.SurfacesRefineMachines | src/response_surface_ledger.rs:298-399 | every operation acts on the surface list as one owner machine per thread, and all records of a thread but the last stay closed |
| ResponseSurfaceRuns.ScansAgree | src/response_surface_ledger.rs:881-900 | the backward lookup hits iff the thread has an active surface, and returns the record the forward scan of a create finds; it misses iff the thread is unknown |
| ResponseSurfaceRuns.UpdateKeepsInv | src/response_surface_ledger.rs:757-764 | every update keeps the state invariant, whatever becomes of its save |
| ResponseSurfaceRuns.ClaimedIsNewAndDurable | src/response_surface_ledger.rs:401-453 | `Claimed` is answered only when the file knew no such event, and the claim is then in the file |
| ResponseSurfaceRuns.ClaimsAreSeparatedByRelease | src/response_surface_ledger.rs:401-517 | in every run two `Claimed` answers for one event have a release of that very claim in between |
| ResponseSurfaceRuns.SubmittedIsForEver | src/response_surface_ledger.rs:655-722 | a submitted or finished event stays in the ledger with its surface; a terminal status never changes |
| ResponseSurfaceRuns.SubmittedNeverClaimedOrReleased | src/response_surface_ledger.rs:401-517 | past the submit boundary no claim is granted and no release succeeds or changes the file |
| ResponseSurfaceRuns.SurfaceOfEventIsFixed | src/response_surface_ledger.rs:655-722 | between releases an event keeps its surface and its time of receipt |
| ResponseSurfaceRuns.FinishedAtMostOnce | src/response_surface_ledger.rs:609-722 | at most one caller is told that it recorded a terminal status for an event |
| ResponseSurfaceRuns.ThreadMovesOnlyAfterClose | src/response_surface_ledger.rs:298-399 | the owner of a thread changes only through a close of that owner |
| ResponseSurfaceRuns.TurnIsWriteOnce | src/response_surface_ledger.rs:519-563 | a recorded continuation turn never changes |
| ResponseSurfaceAnswers.ClaimAnswers | src/response_surface_ledger.rs:401-453 | the whole answer to a claim by the fields of event and records: refused for a blank field, granted without a record, otherwise processing or processed with the recorded surface and status |
| ResponseSurfaceAnswers.ClaimsAreIndependent | src/response_surface_ledger.rs:935-958 | events that differ in provider id, type, account, conversation or event id do not touch each other: claiming one leaves the answer for the other as it was |
| ResponseSurfaceAnswers.OtherSurfaceIsNoOtherEvent | src/response_surface_ledger.rs:401-453 | the same event for another surface is never claimed a second time |
| ResponseSurfaceAnswers.RecordAnswers | src/response_surface_ledger.rs:655-722 | the whole answer to recording a status, by the fields of event and records |
| ResponseSurfaceAnswers.ReleaseAnswers | src/response_surface_ledger.rs:491-517 | a release succeeds exactly for a claimed event of this surface, and its record is gone |
| ResponseSurfaceAnswers.OnlyFinalStatusIsHandedBack | src/response_surface_ledger.rs:609-653 | exactly the three final statuses may be handed back by digest |
| ResponseSurfaceAnswers.CreateAnswers | src/response_surface_ledger.rs:298-350 | the whole answer to a create, and that a lookup in the four-field thread then finds a surface with exactly the requested session, provider, mode and route |
| ResponseSurfaceAnswers.CreateLeavesOtherThreads | src/response_surface_ledger.rs:298-379 | a create leaves every lookup in a thread that differs in any field as it was |
| ResponseSurfaceAnswers.LookupRefusedIffBlank | src/response_surface_ledger.rs:352-379 | a lookup is refused exactly for a blank field |
| ResponseSurfaceAnswers.CloseAnswers | src/response_surface_ledger.rs:381-399 | closing the open surface that a lookup hits makes the next lookup say that it is closed |
| ResponseSurfaceAnswers.CloseSaysYesIffOpen | src/response_surface_ledger.rs:381-399 | a close says yes exactly if there is an open surface of that id, and changes nothing otherwise |
| ResponseSurfaceAnswers.TurnAnswers | src/response_surface_ledger.rs:519-549 | the whole answer to recording a continuation turn |
| ResponseSurfaceRecovery.RecoveryListIsExact | src/response_surface_ledger.rs:581-607 | the recovery list holds exactly the unfinished events whose surface is in the surface table |
| ResponseSurfaceRecovery.RecoveryKeysUnique | src/response_surface_ledger.rs:581-607 | no event is listed twice |
| ResponseSurfaceRecovery.RecoveryIsAddressedToSurface | src/response_surface_ledger.rs:581-607 | account, conversation and thread of a recovery record are those of its own surface |
| ResponseSurfaceRecovery.RecoveredEvents | src/response_surface_ledger.rs:609-653 | handing a selection of the list back finishes exactly the selected events and touches no other |
| ResponseSurfaceRecovery.RecoveryNeverFails | src/response_surface_ledger.rs:581-653 | each record, handed back in its turn with a terminal status, is answered `Recorded` |
| ResponseSurfaceRecovery.RecoveryDrains | src/response_surface_ledger.rs:581-653 | afterwards the recovery list is empty, and unfinished are exactly the earlier unfinished events without a surface |
| ResponseSurfaceRecovery.ReconcileUnfinished | src/cli/mod.rs:1819-1934 | the restart loop, with its own choice of statuses and nobody else writing meanwhile, leaves the ledger with every notified event finished and fails only through a save |
| ResponseSurfaceRecovery.RestartOutcome | src/cli/mod.rs:1967-1983 | a notified event that was claimed ends as failed, one that may have been submitted as unknown, and one without a notice stays as it was |
| ResponseSurfaceRecovery.HandBackIsAnswered | src/cli/mod.rs:1797-1934 | beside a running service: a record of an earlier list, handed back after any updates, is answered `Recorded` or `Duplicate` unless its claim was released or the save fails; "not found" means exactly that the event is gone, through a release |
| ResponseSurfaceRecovery.HandedBackIsFinished | src/cli/mod.rs:1797-1934 | once a hand-back succeeded the event is finished for the rest of every run |
| ProviderInbound.LookupAndClaimSurfaceReply | src/provider_inbound.rs:602-750 | a reply either claims its event for the surface that the lookup hits or leaves ledger and file unchanged |
| ProviderInbound.LookupAndClaimThreadReply | src/provider_inbound.rs:752-878 | the same for a thread binding, which must be the reply's own |
| ProviderInbound.ReplyIsOneUpdate | src/provider_inbound.rs:602-878 | run on a freshly loaded ledger, a reply is exactly one update step |
| ProviderInbound.ReadyOncePerEvent | src/provider_inbound.rs:602-878 | over any mix of both kinds of replies and all other updates, two `Ready` answers for one provider event have a release in between |
| ProviderInbound.NeverReadyAfterSubmit | src/provider_inbound.rs:602-878 | after an event was submitted or finished no reply for it becomes `Ready` |
| ProviderInbound.ReadyBelongsToThreadOwner | src/provider_inbound.rs:602-750 | a `Ready` surface reply carries the facts of the surface that owns its thread |
| ProviderAnswers.SurfaceReplyIsReadyIff | src/provider_inbound.rs:602-750 | a surface reply is ready exactly if its mode takes it, the lookup in its own four-field thread hits, and its event is complete, new and saved; it carries the surface that was hit |
| ProviderAnswers.ThreadReplyIsReadyIff | src/provider_inbound.rs:752-878 | a bridged reply is ready exactly if its mode takes it, the binding is of its own thread, and its event is complete, new and saved; it runs in the bound session |
| ProviderAnswers.ClaimRefusedAnswer | src/provider_inbound.rs:680-750 | what a reply is told whose claim is not granted: incomplete, in processing or done for the recorded surface, or not saved |
| ProviderAnswers.SurfaceReplyRefused | src/provider_inbound.rs:602-680 | which answer a surface reply gets that is not claimed at all |
| ProviderAnswers.ThreadReplyRefused | src/provider_inbound.rs:752-800 | the same for a reply in a bridged thread |
| ProviderAnswers.RepliesAreIndependent | src/provider_inbound.rs:602-878 | replies to different provider events do not change what the other is told, whichever way either came in |
| ProviderAnswers.BridgeSurfacesDiffer | src/provider_inbound.rs:907-924 | the hashed text of a bridged thread tells its thread and session, as long as no id holds a line break |
| DeliverySafety.Guard.PruneDeliveryWindows | src/delivery_safety.rs:429-439 | every window loses its old front, and empty windows disappear |
| DeliverySafety.Guard.RecordSuppressedMessage | src/delivery_safety.rs:271-300 | forgets old suppressions, remembers this one, and starts the pause at three |
| DeliverySafety.Guard.CheckAt | src/delivery_safety.rs:192-254 | the decision, the new memory and the saved pause of one check |
| DeliverySafety.Guard.CheckForProviderTarget | src/delivery_safety.rs:178-190 | an untrimmed target is an error that changes nothing; otherwise the check for that target |
| DeliverySafety.Guard.ResetAll | src/delivery_safety.rs:135-144 | everything is forgotten, and the saved pause is removed if the save succeeds |
| DeliverySafetyRuns.DropOldIsRecent | src/delivery_safety.rs:429-439 | popping old fronts of a sorted window is counting from a later time |
| DeliverySafetyRuns.CheckRefines | src/delivery_safety.rs:192-254 | one check on pruned windows gives the decision, count and pause of a guard that keeps every attempt |
| DeliverySafetyRuns.RunRefines | src/delivery_safety.rs:192-254 | the same for every call of every run with resets and reloads |
| DeliverySafetyRuns.WindowsAreExact | src/delivery_safety.rs:192-254 | after every unpaused check each window is not empty, sorted, within the last ten seconds, and holds exactly the attempts of that time |
| DeliverySafetyRuns.AtMostFourInTenSeconds | src/delivery_safety.rs:221-238 | within one guard lifetime any closed ten-second interval holds at most four allowed deliveries per key, whatever comes in between |
| DeliverySafetyRuns.AllowedIffFewTries | src/delivery_safety.rs:192-254 | an unpaused check is allowed exactly if at most three unpaused checks of its key came within 10,000,000,000 ns before it in this lifetime; the fifth is suppressed with its count |
| DeliverySafetyRuns.PauseStartsAtThreeStorms | src/delivery_safety.rs:271-300 | the pause starts on exactly the suppressed check that makes three messages hot within two minutes; its count is three, and before that at most two are remembered |
| DeliverySafetyRuns.PauseLatches | src/delivery_safety.rs:209-219 | once paused every check is refused until a reset, also across reloads if the pause reached the file |
| DeliverySafetyRuns.AnnouncedPauseIsSaved | src/delivery_safety.rs:112-144 | a pause that was announced to a caller survives every reload until a reset |
| BridgeBindingLedger.Ledger.ConnectRoomProjectAt | src/bridge_binding_ledger.rs:256-306 | connects the pair, keeps its creation time, and settles the project's open proposals |
| BridgeBindingLedger.Ledger.DisconnectRoomProjectAt | src/bridge_binding_ledger.rs:308-327 | marks the pair disconnected, or answers nothing |
| BridgeBindingLedger.Ledger.MarkProposalsBoundToExisting | src/bridge_binding_ledger.rs:957-977 | settles every matching proposal that did not create a room, and no other |
| BridgeBindingLedger.Ledger.RememberOwnerDirectChatAt | src/bridge_binding_ledger.rs:387-416 | one record per direct chat |
| BridgeBindingLedger.Ledger.BeginProjectRoomProposalPromptAt | src/bridge_binding_ledger.rs:457-521 | an unknown or failed proposal is to be prompted; any other is skipped but marked as seen |
| BridgeBindingLedger.Ledger.BeginManualProjectRoomProposalPromptAt | src/bridge_binding_ledger.rs:523-570 | reopens the proposal whatever its status |
| BridgeBindingLedger.Ledger.MarkProposalAt | src/bridge_binding_ledger.rs:572-680 | the four marks of a proposal by its id |
| BridgeBindingLedger.Ledger.BindThreadSessionAt | src/bridge_binding_ledger.rs:709-751 | binds a new thread, adopts a missing route hash, repeats an equal bind, refuses every other |
| BridgeRuns.RoomsRefineMap | src/bridge_binding_ledger.rs:256-327 | the room list is a map from the five-field key |
| BridgeRuns.ProposalsRefineMap | src/bridge_binding_ledger.rs:457-680 | the proposal list is a map from the proposal id, with one status machine each |
| BridgeRuns.ConnectSettles | src/bridge_binding_ledger.rs:957-977 | a connect settles the open proposal of its provider and folder in this room and leaves every other proposal as it was |
| BridgeRuns.ThreadsRefineMap | src/bridge_binding_ledger.rs:709-751 | the thread list is a map from the five-field key |
| BridgeRuns.ApplyKeepsInv | src/bridge_binding_ledger.rs:256-751 | every operation keeps all four tables keyed uniquely and every room key valid |
| BridgeRuns.ConnectedIffLastCommandConnects | src/bridge_binding_ledger.rs:256-342 | in every run a pair is connected exactly when its last command was a connect |
| BridgeRuns.ThreadBindingIsWriteOnce | src/bridge_binding_ledger.rs:1012-1033 | session, folder and creation time of a thread never change; its route hash is written at most once |
| BridgeRuns.BindIsRejectedIffTaken | src/bridge_binding_ledger.rs:709-751 | a valid bind is rejected, without any change, exactly when session, folder tree or route do not fit |
| BridgeRuns.BoundThreadIsFound | src/bridge_binding_ledger.rs:753-776 | right after a bind the lookup by thread gives it, and the lookup by session and folder gives a binding in the same conversation |
| BridgeRuns.PromptReply | src/bridge_binding_ledger.rs:457-521 | an automatic prompt is granted exactly for an unknown or failed proposal |
| BridgeRuns.PromptsAreSeparatedByFailure | src/bridge_binding_ledger.rs:457-680 | in every run two automatic prompts for a project have a prompt-failed mark in between |
| BridgeAnswers.BindIsAcceptedIff | src/bridge_binding_ledger.rs:709-751 | a bind is refused as invalid exactly for an untrimmed field or an unclean folder |
| BridgeAnswers.ConnectAnswers | src/bridge_binding_ledger.rs:256-306 | the answer to a connect is the record stored from then on, with the old creation time if there was one |
| BridgeAnswers.DisconnectAnswers | src/bridge_binding_ledger.rs:308-327 | the answer to a disconnect, and the stored record |
| BridgeAnswers.RememberAnswers | src/bridge_binding_ledger.rs:387-416 | a direct chat is remembered with its latest time and first creation time; no other chat is touched |
| BridgeAnswers.LatestThreadIsFound | src/bridge_binding_ledger.rs:764-776 | the lookup by session and folder finds the latest binding of exactly this room, session and folder tree, if there is one |
| BridgeAnswers.MarkWrites | src/bridge_binding_ledger.rs:572-680 | which fields each of the four marks writes and which it leaves |
| BridgeAnswers.MarkAnswers | src/bridge_binding_ledger.rs:572-680 | a mark reaches the proposal of its id and no other |
| BridgeAnswers.BeginAnswers | src/bridge_binding_ledger.rs:457-521 | every field of the proposal after an automatic request, new, reopened or skipped |
| BridgeAnswers.BeginManualAnswers | src/bridge_binding_ledger.rs:523-570 | every field of the proposal after a manual request |
| BridgeAnswers.UnaskableIsRefused | src/bridge_binding_ledger.rs:457-570 | an untrimmed provider or an unclean folder is refused and changes nothing |
| BridgeControl.DisconnectRoomProjects | src/bridge_control.rs:814-836 | disconnects the records one after the other and stops at the first error |
| BridgeControl.HandleProviderControlCommand | src/bridge_control.rs:107-208 | ledger and answer of every control command; a direct chat is remembered first |
| BridgeControl.UnbindRoom | src/bridge_control.rs:337-378 | `/unbind` with and without a folder |
| BridgeControl.ConnectedListIsExact | src/bridge_binding_ledger.rs:329-342 | the listed projects are exactly those connected to the room |
| BridgeControl.UnbindAllEmptiesRoom | src/bridge_control.rs:337-378 | a bare `/unbind` never fails, disconnects all of the room, and touches no other room and no other table |
| BridgeControl.UnbindAllLeavesNoProject | src/bridge_control.rs:814-836 | afterwards the room lists no project |
| BridgeControl.RoomSessionsRunInConnectedProjects | src/bridge_control.rs:380-461 | a room's `/new` starts a session in a folder exactly when the prompt is not blank and that folder is the named, existing, connected one, or no folder is named and it is the only connected one |
| BridgeControl.CommandsStayInTheirRoom | src/bridge_control.rs:107-208 | a command changes bindings of its own room only, a direct command none, and no command a thread binding |
| ControlAnswers.RoomNewSession | src/bridge_control.rs:169-461 | on the handler of all commands: a room's `/new` starts a session exactly in the named, existing folder connected to that room, or in its only connected one, with the trimmed prompt; it changes nothing |
| ControlAnswers.DirectNewSession | src/bridge_control.rs:463-525 | a direct `/new` starts a session exactly in a named, clean, existing folder |
| ControlAnswers.RoomNewSessionRefused | src/bridge_control.rs:380-461 | why a room's `/new` starts nothing |
| ControlAnswers.RoomNewSessionOffers | src/bridge_control.rs:380-461 | with several connected folders and none named, exactly the connected ones are offered |
| ControlAnswers.DirectNewSessionRefused | src/bridge_control.rs:463-525 | why a direct `/new` starts nothing |
| ControlAnswers.OnlyNewStartsSessions | src/bridge_control.rs:107-208 | no other command starts a session |
| ControlAnswers.BindCommand | src/bridge_control.rs:244-275 | `/bind` is accepted exactly for a clean, existing folder, and the pair is then connected |
| ControlAnswers.UnbindCommand | src/bridge_control.rs:337-378 | `/unbind` of a folder leaves that pair disconnected and every other as it was |
| ControlAnswers.UnbindAllCommand | src/bridge_control.rs:337-378 | a bare `/unbind` leaves no folder connected to the room, and says so exactly if there was one |
| ControlAnswers.UnbindAllNames | src/bridge_control.rs:337-378 | the answer to a bare `/unbind` names exactly the folders that were connected |
| ControlAnswers.StatusCommand | src/bridge_control.rs:560-604 | `/status` in a room lists exactly the connected folders |
| ControlAnswers.DirectStatusCommand | src/bridge_control.rs:606-643 | `/status` in a direct chat lists exactly the folders connected to any conversation of the account |
| ControlAnswers.ProjectRoomCommand | src/bridge_control.rs:277-323 | a direct request for a room opens the proposal exactly for a clean, existing folder |
| ControlAnswers.ChatIsRemembered | src/bridge_control.rs:121-131 | every direct command remembers its chat, no room command does |
| ChatCommands.TrimLeadingMentions | src/provider_inbound.rs:1198-1209 | the stripping loop ends and removes what the recursive definition removes |
| ChatCommands.ParseRender | src/provider_inbound.rs:1063-1141 | every typable command is read back from its text |
| ChatCommands.ParseGivesTypable | src/provider_inbound.rs:1063-1141 | the parser never gives anything but a typable command or `Invalid` |
| ChatCommands.MentionsAreStripped | src/provider_inbound.rs:1198-1209 | any number of leading mentions leaves no trace |
| ChatCommands.StripMentionsIdempotent | src/provider_inbound.rs:1198-1209 | stripping twice is stripping once |
| ChatCommands.CommandRoundTrip | src/provider_inbound.rs:1198-1218 | any typable command behind any number of mentions is read back unchanged |
| ChatCommands.ContextIsRespected | src/provider_inbound.rs:486-532 | for every text: direct chats give only direct-chat commands or `Invalid`, rooms never do, threads give no command of the room itself |
| ChatCommands.RoomCommandArrives | src/provider_inbound.rs:384-546 | a typable command sent to a room behind mentions is the command carried out |
| ChatAnswers.CommandIffFirstWord | src/provider_inbound.rs:1063-1141 | a text is a command exactly if its first word is one of the five, and invalid exactly if that word lacks its argument or has one it does not take |
| ChatAnswers.ParsedKeepsWords | src/provider_inbound.rs:1063-1141 | the text of whatever was parsed has exactly the words of the message |
| ChatAnswers.CommandArrives | src/provider_inbound.rs:486-532 | a typed command behind mentions takes its direct form in a direct chat, its own in a room, and is invalid inside a thread if it belongs to the room |
| ChatAnswers.SkippedIff | src/provider_inbound.rs:466-497 | exactly which messages are skipped and why, and that plain conversation gets guidance |
| Router.BoundTargets | src/router.rs:419-437 | succeeds exactly when every room resolves, and gives the target of the first room of every delivery key |
| ProjectPaths.ComponentsOfSlashed | src/bridge_binding_ledger.rs:694-707 | the components of the absolute path of some names are exactly those names |
| ProjectPaths.ExtraSlashesDoNotMatter | src/bridge_binding_ledger.rs:694-707 | doubled, leading and trailing slashes change no component |
| ProjectPaths.StartsWithIsAtOrBelow | src/bridge_binding_ledger.rs:1049-1053 | a path starts with a base exactly if, extra slashes aside, it is the base or goes on behind it with a slash |
| ProjectPaths.TidyStartsWith | src/bridge_binding_ledger.rs:1049-1053 | for paths without extra slashes that compares the very texts, so `/ab` is not below `/a` |
| ProjectPaths.CleanIffNoDots | src/config.rs:967-984 | a path is clean exactly if it is trimmed, absolute, and no component between slashes of either kind is a dot or two dots |
| TargetResolution.RoomsAreConnectedAncestors | src/bridge_binding_ledger.rs:694-707 | the considered rooms are the provider's connected ones whose folder the signal's path equals or goes on behind with a slash |
| TargetResolution.TargetIsLatestThread | src/router.rs:635-689 | a room is answered in the latest thread of this session and folder tree in it, if there is one, and in the room itself otherwise |
| TargetResolution.SameKeyIffSamePair | src/router.rs:984-997 | two considered rooms without line breaks in account and conversation id share a delivery key exactly when they are the same account and conversation, whatever thread ids there are |
| TargetResolution.OneTargetPerConversation | src/router.rs:419-437 | for every resolution: as many targets as different (account, conversation) pairs among the considered rooms if and only if the keys tell the pairs apart, then each pair exactly once; never static |
| TargetResolution.LineFreeRoomsAreToldApart | src/router.rs:912-925 | considered rooms without line breaks in account and conversation ids are told apart |
| TargetResolution.NewlinesMergeRooms | src/router.rs:984-997 | a reachable ledger with two connected rooms whose only possible resolution is a single target |
| TargetResolution.EqualTargetsDifferInAccount | src/router.rs:886-910 | two targets of a resolution are equal exactly when both are conversations with one id; their rooms then differ in account |
| TargetResolution.TargetedTwiceIffAccountsShare | src/router.rs:419-437 | while the keys tell pairs apart, a target occurs twice if and only if two accounts have rooms with one conversation id and no thread of the session |
| TargetResolution.AccountsGetOneTargetTwice | src/router.rs:927-954 | a reachable ledger whose only possible resolution names one conversation twice |
| RoutingPass.PromptProjectRoom | src/router.rs:466-633 | ledger and answer of one prompt that was sent, failed, skipped or impossible; what that does to the proposal is `PassLedger.PromptDecides` |
| PassLedger.PromptDecides | src/router.rs:466-633 | a prompt is sent exactly for a valid proposal that needs one; afterwards it is pending if delivered and failed if not, and no other status changes |
| PassLedger.DeliveredPromptIsLast | src/router.rs:241-258 | after a delivered prompt the rest of the pass does not ask about that project through that provider again, however often it is listed |
| PassLedger.PassIsRun | src/router.rs:241-371 | up to every visit a pass is a run of the bridge ledger made of prompts, marks and binds, so the theorems on runs hold for passes |
| RoutingPass.DeliveryTargets | src/router.rs:386-464 | static only without ledger, clean folder or bound room; a prompt when there is no room and no static target |
| RoutingPass.AttemptDelivery | src/router.rs:260-370 | verdict, guard and ledger after one attempt: without a guard everything is sent, with one exactly what it allows, and only a delivered message binds its thread |
| RoutingPass.BindDelivered | src/router.rs:800-863 | a delivered message binds its thread to the signal's folder; a refused bind changes nothing |
| RoutingPass.AttemptAll | src/router.rs:259-371 | every target once, each on what the previous attempt left; the counters are those of the verdicts |
| RoutingPass.VisitProvider | src/router.rs:242-258 | a missing adapter or failed resolution is one failure and no attempt; otherwise exactly the targets found are tried |
| RoutingPass.Route | src/router.rs:188-384 | every listed provider of every matching route is visited once and in order, which are exactly those that an admitting route lists; report or failures are those of the visits |
| RouteMatching.ListedIsFlattened | src/router.rs:200-242 | visiting the matching routes one by one visits the listed providers in configuration order |
| RouteMatching.MatchesIffAdmits | src/router.rs:1064-1118 | a route matches exactly if it lists the source, has no minimum above a known duration, and names no folders or one at or above the signal's clean path |
| RouteMatching.RoutesAreAdmitting | src/router.rs:200-242 | the visited providers are exactly those that an admitting route lists, and the matching routes are counted as the admitting ones |
| RoutingRuns.VerdictsAreCounted | src/router.rs:259-371 | each counter counts its own kind of verdict, and every verdict is counted |
| RoutingRuns.AttemptsAreConserved | src/router.rs:236-384 | attempts and unresolved providers together are successes, suppressions and failures |
| RoutingRuns.SuccessfulReportIsComplete | src/router.rs:374-384 | a report without failures has attempted = succeeded + suppressed and resolved every provider |
| PassLedger.PassKeepsRooms | src/router.rs:241-371 | no pass changes a room binding |
| RoutingRuns.VisitCoversConversations | src/router.rs:386-464 | whatever came before in the pass, a resolved provider with rooms is tried once per (account, conversation) pair bound when the pass began if and only if the keys tell those pairs apart; line-break-free ids at the start are enough |
| RoutingRuns.AttemptObeysGuard | src/router.rs:260-310 | a message goes out only if the guard, asked about this message, provider and target, allows it; its other answers are a suppression or a failure |
| RoutingRuns.OnlyDeliveryBinds | src/router.rs:800-863 | only a delivered message binds a thread, namely its surface's, to the signal's folder |
| RoutingRuns.UnboundIsStaticOrSkipped | src/router.rs:386-464 | without a bound room a provider is served statically if it can be and not at all otherwise |
| RoutingRuns.UnregisteredIsMissing | src/router.rs:242-247 | a provider without an adapter is one failure and no attempt |
| PassLedger.DeliveredThreadIsReused | src/router.rs:635-689 | once a delivered message has bound its thread, in every later state of every run the target of the session in that room is a thread of that conversation |
| RoutingRuns.DeliveriesAreBounded | src/router.rs:259-371 | within ten seconds the allowed deliveries of a message to a target so far and those of a whole pass are together at most four |
| ClaudeCodeHooks.HasHookCommand | src/local_integrations.rs:286-315 | the scan stops at the first match or the first malformed element |
| ClaudeCodeHooks.Settings.EnsureHooks | src/local_integrations.rs:231-284 | the settings become the merged ones, or the reason why they cannot be merged |
| ClaudeCodeHooks.MergeExtends | src/local_integrations.rs:231-284 | every other key is unchanged, each of the four arrays gains at most one entry at its end, and the scan then succeeds for all four |
| ClaudeCodeHooks.ScanTellsInstalled | src/local_integrations.rs:286-315 | a scan that reaches a verdict says yes exactly when some command of some hook runs the command |
| ClaudeCodeHooks.MergeInstalls | src/local_integrations.rs:231-284 | after a merge some hook of each of `SessionStart`, `UserPromptSubmit`, `Stop` and `Notification` runs the command |
| ClaudeCodeHooks.EntryRunsOnlyCommand | src/local_integrations.rs:262-284 | the appended entry runs its command and nothing else, for ten seconds |
| ClaudeCodeHooks.DisabledIsRefused | src/local_integrations.rs:231-284 | settings that switch all hooks off are refused |
| ClaudeCodeHooks.MergeIsIdempotent | src/local_integrations.rs:231-315 | merging twice is merging once |
| CodexStopHook.Config.EnableLifecycleHooks | src/local_integrations.rs:366-387 | the feature table after dropping the old flag and switching hooks on |
| CodexStopHook.Config.EnsureStopHook | src/local_integrations.rs:317-325 | the document with flag and stop hook, or the reason why not |
| CodexStopHook.StopScanIsExact | src/local_integrations.rs:389-411 | the scan says yes exactly when some entry of some stop hook runs the command |
| CodexStopHook.NewHookRunsOnlyCommand | src/local_integrations.rs:412-441 | the appended stop hook runs its command and nothing else, for ten seconds |
| CodexStopHook.EnsureConfigures | src/local_integrations.rs:366-441 | the old flag is gone, hooks are on and the stop hook is found; at most one entry is appended, none if it was there, and nothing else in document, feature table and hook table changes |
| CodexStopHook.EnsureIsIdempotent | src/local_integrations.rs:317-441 | configuring twice is configuring once |
| SignalPreview.PreviewShape | src/signal_builder.rs:140-153 | a preview is the compact text or its first 360 characters and three dots, at most 363 characters, and compact itself |
| SignalPreview.PreviewIsIdempotent | src/signal_builder.rs:140-153 | previewing a preview changes nothing, also when the cut fell on a blank |
| SignalPreview.GapsDoNotMatter | src/signal_builder.rs:140-153 | white space between two texts can be exchanged for any other |
| SignalPreview.PreviewIsEmptyIffBlank | src/signal_builder.rs:140-153 | a preview is empty exactly for a text without any other character than white space |
| SignalPreview.CompactIsCompact | src/signal_builder.rs:140-144 | the compact text has single blanks only, between words, and the words of the input |
| SignalPreview.AnswerIsDroppedIffBlank | src/signal_builder.rs:126-138 | an answer is dropped exactly when it is missing or blank |
| SignalPreview.FullAnswerIsTrimmed | src/signal_builder.rs:126-138 | a full answer is the given one without the white space around it |
| SignalPreview.ShortAnswerIsPreview | src/signal_builder.rs:126-138 | a short answer is the preview of the given one |
| ServiceEscaping.XmlEscapeIsOneSubstitution | src/service.rs:867-874 | the five successive replacements are one replacement of characters by entities |
| ServiceEscaping.XmlEscapeHasNoMarkup | src/service.rs:867-874 | no markup character survives, and every ampersand starts a predefined entity |
| ServiceEscaping.XmlEscapeRoundTrip | src/service.rs:867-874 | decoding the predefined entities (sections 2.4 and 4.6 of XML 1.0) gives back every string |
| ServiceEscaping.SystemdEscapeIsOneSubstitution | src/service.rs:704-706 | the two passes are one replacement of characters |
| ServiceEscaping.SystemdEscapeRoundTrip | src/service.rs:704-706 | dropping the escaping backslashes gives back every string |

## Left out

- BridgeRuns.ThreadBindingIsWriteOnce: speaks of completed updates only; the bridge ledger file is overwritten in place, so what a crash in the middle of that leaves is not modelled.
- DeliverySafetyRuns.RunRefines: assumes that the clock never runs backwards; pruning looks at window fronts only.
- ResponseSurfaceRecovery.ReconcileUnfinished: sending the notices is a predicate that says which of them went out; the wording of the notices is not modelled. It assumes that no other update runs between its hand-backs; beside the running service that is `ResponseSurfaceRecovery.HandBackIsAnswered`, one hand-back at a time.
- RoutingPass.DeliveryTargets: several lookups of one resolution read one and the same ledger state; other processes that write to the file in between are not modelled.
- CodexStopHook.EnsureConfigures: speaks of the document in memory. When `hooks` is an inline table the appended hooks are an array of tables inside it, and what becomes of them when the file is written and read again is not modelled.
- CodexStopHook.EnsureIsIdempotent: the same; a second edit of the document in memory, not of a file written and read in between.
- Digest values: SHA-256 and the truncation of proposal ids to 24 hexadecimal digits are represented by what is hashed, so collisions are not modelled.
- The message fingerprint of a signal (`src/delivery_safety.rs:364-402`) is an input.
- Creation of a response surface after a delivery (`src/router.rs:691-798`): whether one was created, and for which thread, is an input of the attempt.
- Ledgers and guards without a file, which only the repository's own tests use, and errors while loading a file.
- Direct chat records of older files and the choice of the owner's direct chat for a prompt.
- Whether a message starts with a mention of the bot itself is an input, and the byte positions inside mention tokens are not modelled.
- Texts of messages, logging, localisation, and the rendering of JSON and TOML, such as comments and the order of keys.
- Provider connections, service managers, the command line, the setup wizard, the npm scripts, and the runtime owner lock.
- Catalogues, response surface policy and exposure, the execution scope guard, and URL validators, which are tables or single set operations.
