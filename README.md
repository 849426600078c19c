# sdl_core application manager: message chaining and three command handlers

This project models, in Dafny, the part of SmartDeviceLink's `ApplicationManagerImpl` through which a request from a mobile application is tracked while the HMI answers it. It also models three command handlers that use the manager.

- One mobile request can be fanned out to several HMI requests. The manager keeps a three-level "message chaining" store: connection key → mobile correlation id → HMI correlation id → a shared `MessageChaining` record that counts the HMI responses still awaited. `AddMessageChain`, `DecreaseMessageChain`, `GetMessageChain` and `RemoveMobileRequestFromMessageChain` are proved against a value-level specification of that store (module `ChainStore`). The specification includes the order in which `std::map` iterates the store.
- HMI correlation ids come from a wrapping 32-bit counter (`GetNextHMICorrelationID`).
- The model also covers:
  - the audio pass-thru flag;
  - the correlation-id → application-id table;
  - the application registry (`application`, `UnregisterApplication`);
  - the notification list;
  - the HMI-capabilities readiness test.
- `ResetGlobalPropertiesRequest` resets an application's prompts and VR help. It then sends UI and/or TTS `SetGlobalProperties`, and the first request it sends announces how many HMI legs the mobile request has.
- `OnVRCommandNotification` sorts a spoken VR command into one of five cases: an application command forwarded to mobile, the Help command, an application activation, input to a running PerformInteraction, or a command that is dropped because no application (active or named) exists. It does this in `unsigned int` arithmetic, which wraps.
- `OnSystemContextNotification` moves the active application to the new system context. For a media application it mutes or unmutes the audio when a VR session starts or ends. It then sends an HMI status notification.

Modules:

- `Common`: 32-bit types, wrapping arithmetic, `Option`.
- `OrderedKeys`: ascending key order of `std::map`.
- `CorrelationIds`: the id counter.
- `MessageChaining`: the record.
- `ChainStore`: the specification of the store.
- `Applications`: the application object.
- `ApplicationManager`: the class `ApplicationManagerImpl`.
- `ResetGlobalProperties`, `OnVrCommand`, `OnSystemContext`: the handlers.
- `Scenarios`: call sequences on a fresh manager.

Objects whose fields the source updates (the manager, applications, the command objects, the VR message) are classes with `modifies` frames. Each imperative method is proved against a function of its inputs and old state. Loops are kept where the source has them; the nested loops of DecreaseMessageChain and GetMessageChain each become one loop over a snapshot of the entries taken by ChainStore.ListEntries (see "## Left out").

## Model

Source paths are relative to the repository root.

| member | source | states |
|---|---|---|
| Common.AddU32 | src/components/application_manager/src/commands/hmi/on_vr_command_notification.cc:61 | `unsigned int` addition wraps modulo 2^32: the plain sum below 2^32, the sum minus 2^32 above |
| Common.SubU32 | src/components/application_manager/src/commands/hmi/on_vr_command_notification.cc:62 | `unsigned int` subtraction wraps: the plain difference when it is not negative, otherwise plus 2^32 |
| Common.ToInt32 | src/components/application_manager/src/application_manager_impl.cc:182 | an `unsigned int` id passed to `application(int)` becomes the `int` congruent to it modulo 2^32 (two's complement) |
| Common.Int32Unique | src/components/application_manager/src/application_manager_impl.cc:182 | two `int`s congruent modulo 2^32 are equal, so ToInt32's contract determines its result |
| CorrelationIds.NextId | src/components/application_manager/src/application_manager_impl.cc:535-543 | one call advances the counter by one modulo 2^32: UINT_MAX is followed by 0 |
| CorrelationIds.IterateIsModular | src/components/application_manager/src/application_manager_impl.cc:535-543 | n calls advance the counter by n modulo 2^32 |
| CorrelationIds.FirstIdsCountUp | src/components/application_manager/src/application_manager_impl.cc:60 | from the initial value 0 the first id handed out is 1, and the i-th is i for every i up to UINT_MAX |
| CorrelationIds.WrapsOnce | src/components/application_manager/src/application_manager_impl.cc:536-540 | among the first UINT_MAX + 2 calls from 0, only call UINT_MAX + 1 returns 0 |
| CorrelationIds.NoRepeatWithinPeriod | src/components/application_manager/src/application_manager_impl.cc:535-543 | no id is handed out twice within 2^32 consecutive calls |
| MessageChaining.Decremented | src/components/application_manager/src/application_manager_impl.cc:630 | DecrementCounter keeps the connection key, correlation id and data, lowers a positive counter by exactly one, and leaves 0 at 0 |
| MessageChaining.NewChain | src/components/application_manager/src/application_manager_impl.cc:554-560 | `new MessageChaining(connection_key, correlation_id)` with `set_data` when data is given; defined by its body, and LookupAfterAddNewLeg and AddMessageChain state that the record created is the one returned and found |
| MessageChaining.SameChain | src/components/application_manager/src/application_manager_impl.cc:602 | `operator==`; defined by its body; FirstEqualSlot and FindEqualSlot state which slot it selects |
| ChainStore.ListEntries | src/components/application_manager/src/application_manager_impl.cc:623-626 | the (connection key, mobile correlation id) entries, each exactly once, in the order of the two nested map iterators (lexicographically ascending) |
| ChainStore.Lookup | src/components/application_manager/src/application_manager_impl.cc:682-700 | a record is found iff some entry has a slot for the HMI id, and it is the record of such a slot |
| ChainStore.AddNewLeg | src/components/application_manager/src/application_manager_impl.cc:553-590 | a new record for (c, m) under slot [c][m][h]; the levels are created when missing; an existing slot h is overwritten; every other entry, slot and record is unchanged; the store stays well formed |
| ChainStore.NewLegStore | src/components/application_manager/src/application_manager_impl.cc:562-587 | the three map insertions of the new leg; defined by its body; AddNewLeg states what it changes and keeps |
| ChainStore.FirstEqualSlot | src/components/application_manager/src/application_manager_impl.cc:600-607 | the slot the re-use loop stops at: the smallest HMI id of (c, m) whose record equals the given chain, or none when none does |
| ChainStore.AddReuse | src/components/application_manager/src/application_manager_impl.cc:595-611 | re-use succeeds iff an equal slot exists; without one the store is unchanged and NULL is returned; the records are never changed |
| ChainStore.AddReuseShares | src/components/application_manager/src/application_manager_impl.cc:602-605 | after re-use, slot h points to the same record as the chosen slot, that record, equal to the given chain, is returned, and only slot h is added |
| ChainStore.DecreaseOver | src/components/application_manager/src/application_manager_impl.cc:623-654 | the scan after visiting some entries keeps the store well formed, keeps the connection keys and records, and only removes entries |
| ChainStore.DecreaseOverStep | src/components/application_manager/src/application_manager_impl.cc:627-651 | visiting one entry either changes nothing (no slot for the id) or decrements that slot's record and erases the entry exactly when the counter reaches 0 |
| ChainStore.Decrease | src/components/application_manager/src/application_manager_impl.cc:623-654 | the store after the scan over every entry; defined by its body; DecreaseAtEntry, DecreaseSparesOthers and DecreaseUnknown state its effect |
| ChainStore.DecreaseOverNothing | src/components/application_manager/src/application_manager_impl.cc:621-623 | before the scan visits an entry the store is untouched |
| ChainStore.CompletingStep | src/components/application_manager/src/application_manager_impl.cc:638-651 | one more visited entry adds itself to the completed ones exactly when its counter reaches 0 |
| ChainStore.ReportedNothing | src/components/application_manager/src/application_manager_impl.cc:621 | before the scan, nothing is reported |
| ChainStore.ReportedAll | src/components/application_manager/src/application_manager_impl.cc:623-656 | after every entry, the scan reports CompletedMobile |
| ChainStore.CompletedMobile | src/components/application_manager/src/application_manager_impl.cc:638-650 | DecreaseMessageChain reports a correlation id iff some entry's counter reaches 0, and then that of the last such entry in iteration order |
| ChainStore.DecreaseAtEntry | src/components/application_manager/src/application_manager_impl.cc:627-651 | at an entry with the HMI slot the shared record is decremented once, and the entry with all its sibling slots is erased iff the counter reaches 0; otherwise its slots are unchanged |
| ChainStore.DecreaseSparesOthers | src/components/application_manager/src/application_manager_impl.cc:629 | an entry without the HMI slot keeps its slots and their records |
| ChainStore.DecreaseUnknown | src/components/application_manager/src/application_manager_impl.cc:623-656 | a response for an HMI id no entry holds changes nothing and reports nothing |
| ChainStore.LookupOnlyAt | src/components/application_manager/src/application_manager_impl.cc:692-695 | an HMI id held by one entry only is found with that entry's record |
| ChainStore.CompletedOnlyAt | src/components/application_manager/src/application_manager_impl.cc:638-650 | for an HMI id held by one entry only, the reported id is that entry's exactly when its counter reaches 0 |
| ChainStore.LookupAfterAddNewLeg | src/components/application_manager/src/application_manager_impl.cc:553-590 | a fresh HMI id added as a new leg is then found with exactly the record created |
| ChainStore.DecreaseSharedLeg | src/components/application_manager/src/application_manager_impl.cc:627-651 | a response on one of two legs sharing a record: if the counter does not reach 0, the other leg finds the decremented record; if it does, the request is reported and neither leg is found again |
| ChainStore.NewLegAlone | src/components/application_manager/src/application_manager_impl.cc:562-573 | a new leg for an unknown request is its only slot |
| ChainStore.ReuseOnlySlot | src/components/application_manager/src/application_manager_impl.cc:596-605 | re-using the record of the only slot makes the two legs share it |
| ChainStore.TwoLegFanOut | src/components/application_manager/src/application_manager_impl.cc:545-657 | a request fanned out to two HMI requests with counter 2: the second add returns the shared record; the first response completes nothing; the second leg then finds the record with counter 1 |
| ChainStore.LastSharedLeg | src/components/application_manager/src/application_manager_impl.cc:638-648 | the last response on two shared legs reports the request and removes both legs |
| ChainStore.TwoLegFanOutCompletes | src/components/application_manager/src/application_manager_impl.cc:614-700 | the second response of the fan-out reports the mobile request, and afterwards neither HMI id is found |
| ChainStore.RemoveEntry | src/components/application_manager/src/application_manager_impl.cc:668-677 | the entry (c, m) is erased (the connection level stays, even empty), every other entry and all records are unchanged, and nothing changes when the entry is missing |
| ChainStore.RemoveLeavesNoStaleMatch | src/components/application_manager/src/application_manager_impl.cc:659-700 | after removing a request, an HMI id that only it held is not found, and a late response on it changes and reports nothing |
| ApplicationManager.RemoveFirst | src/components/application_manager/src/application_manager_impl.cc:1566-1574 | `std::find` then `erase` on the notification list; defined by its body; RemoveFirstAt, RemoveFirstAbsent, RemoveFirstCount and AddThenRemove state its properties |
| ApplicationManager.RemoveFirstAt | src/components/application_manager/src/application_manager_impl.cc:1567-1572 | the first occurrence of the command is the one erased |
| ApplicationManager.RemoveFirstAbsent | src/components/application_manager/src/application_manager_impl.cc:1567-1573 | a command not in the list leaves it unchanged |
| ApplicationManager.RemoveFirstCount | src/components/application_manager/src/application_manager_impl.cc:1566-1574 | exactly one occurrence is removed when there is one: the multiset loses one copy and the length drops by one |
| ApplicationManager.AddThenRemove | src/components/application_manager/src/application_manager_impl.cc:1562-1574 | removing a command just added, which was not listed before, restores the list |
| ApplicationManager.ApplicationManagerImpl.constructor | src/components/application_manager/src/application_manager_impl.cc:60-85 | a fresh manager: empty store, counter 0, audio pass-thru and VR session off, languages INVALID_ENUM, no vehicle type, empty tables |
| ApplicationManager.ApplicationManagerImpl.GetNextHMICorrelationID | src/components/application_manager/src/application_manager_impl.cc:535-543 | the counter advances by NextId and the new value is returned |
| ApplicationManager.ApplicationManagerImpl.FindEqualSlot | src/components/application_manager/src/application_manager_impl.cc:600-607 | the loop over the HMI slots in ascending order returns FirstEqualSlot |
| ApplicationManager.ApplicationManagerImpl.AddMessageChain | src/components/application_manager/src/application_manager_impl.cc:545-612 | without a chain: the store becomes AddNewLeg and the new record is returned; with one: the store and result are AddReuse; the store stays well formed |
| ApplicationManager.ApplicationManagerImpl.DecreaseMessageChain | src/components/application_manager/src/application_manager_impl.cc:614-657 | the store becomes Decrease; the result is true iff some entry completes; the out-parameter is CompletedMobile then, and otherwise keeps the caller's value |
| ApplicationManager.ApplicationManagerImpl.ScanEntries | src/components/application_manager/src/application_manager_impl.cc:623-656 | the loop over the ListEntries snapshot of the entries, in the nested iterators' order, leaves the store as DecreaseOver of all of them and reports the last completing one |
| ApplicationManager.ApplicationManagerImpl.VisitEntry | src/components/application_manager/src/application_manager_impl.cc:627-651 | one iteration: decrement through the HMI slot and erase the entry when the counter reaches 0 |
| ApplicationManager.ApplicationManagerImpl.ReportedAlongIsOver | src/components/application_manager/src/application_manager_impl.cc:638-639 | the value left in the out-parameter by the loop (the last overwrite) is the last completing entry visited |
| ApplicationManager.ApplicationManagerImpl.RemoveMobileRequestFromMessageChain | src/components/application_manager/src/application_manager_impl.cc:659-680 | the result says whether the entry existed, and the store becomes RemoveEntry |
| ApplicationManager.ApplicationManagerImpl.GetMessageChain | src/components/application_manager/src/application_manager_impl.cc:682-700 | the loop returns Lookup: the record of the first slot for the HMI id in iteration order, or NULL |
| ApplicationManager.ApplicationManagerImpl.BeginAudioPassThru | src/components/application_manager/src/application_manager_impl.cc:702-710 | succeeds iff pass-thru was inactive; afterwards it is active |
| ApplicationManager.ApplicationManagerImpl.EndAudioPassThru | src/components/application_manager/src/application_manager_impl.cc:712-719 | succeeds iff pass-thru was active; afterwards it is inactive |
| ApplicationManager.ApplicationManagerImpl.SetApplicationId | src/components/application_manager/src/application_manager_impl.cc:1596-1600 | `std::map::insert`: a new correlation id is stored; an existing entry is kept |
| ApplicationManager.ApplicationManagerImpl.ApplicationId | src/components/application_manager/src/application_manager_impl.cc:1583-1594 | returns the stored application id and erases it, or 0 when there is none |
| ApplicationManager.ApplicationManagerImpl.ApplicationById | src/components/application_manager/src/application_manager_impl.cc:182-189 | the registered application, or NULL exactly when the id is not registered |
| ApplicationManager.ApplicationManagerImpl.UnregisterApplication | src/components/application_manager/src/application_manager_impl.cc:398-411 | false and nothing changed for an unknown id; otherwise the id and its application are removed, its requests are terminated, and the registry stays consistent |
| ApplicationManager.ApplicationManagerImpl.AddNotification | src/components/application_manager/src/application_manager_impl.cc:1562-1564 | the command is appended |
| ApplicationManager.ApplicationManagerImpl.RemoveNotification | src/components/application_manager/src/application_manager_impl.cc:1566-1574 | the list loses the first occurrence of the command, as RemoveFirst |
| ApplicationManager.ApplicationManagerImpl.IsHMICapabilitiesInitialized | src/components/application_manager/src/application_manager_impl.cc:1521-1560 | true iff all five Ready responses arrived and every cooperating component reported capabilities (VR/TTS/UI: supported languages and a valid language; IVI: vehicle type) |
| ResetGlobalProperties.Mark | src/components/application_manager/src/commands/mobile/reset_global_properties_request.cc:84-120 | one turn of the switch over the property codes; defined by its body; MarkFields and MarkRaises state its effect |
| ResetGlobalProperties.FlagsOf | src/components/application_manager/src/commands/mobile/reset_global_properties_request.cc:75-121 | the flags the loop over the property list leaves; defined by its body; FlagOfMembership, FlagsOfMembership, FlagsOrderFree and FlagsIgnoreUnknown state its properties |
| ResetGlobalProperties.MarkFields | src/components/application_manager/src/commands/mobile/reset_global_properties_request.cc:84-120 | one turn of the switch raises the flag of its own code and leaves the others |
| ResetGlobalProperties.MarkRaises | src/components/application_manager/src/commands/mobile/reset_global_properties_request.cc:84-120 | a turn raises the flag of a known code exactly when it is that code or the flag was already up |
| ResetGlobalProperties.FlagsOfStep | src/components/application_manager/src/commands/mobile/reset_global_properties_request.cc:83 | the loop's flags after one more code |
| ResetGlobalProperties.FlagOfMembership | src/components/application_manager/src/commands/mobile/reset_global_properties_request.cc:75-121 | the flag of a known code is raised iff the code occurs in the property list |
| ResetGlobalProperties.FlagsOfMembership | src/components/application_manager/src/commands/mobile/reset_global_properties_request.cc:75-121 | each of the seven flags is raised iff its code occurs in the list |
| ResetGlobalProperties.FlagsOrderFree | src/components/application_manager/src/commands/mobile/reset_global_properties_request.cc:83-121 | the order and repetition of the codes do not matter |
| ResetGlobalProperties.FlagsIgnoreUnknown | src/components/application_manager/src/commands/mobile/reset_global_properties_request.cc:113-119 | an unknown code changes no flag |
| ResetGlobalProperties.PromptArray | src/components/application_manager/src/commands/mobile/reset_global_properties_request.cc:211-219 | the prompt array has one item per profile string, and item i holds string i as its text |
| ResetGlobalProperties.TextsOfPromptArray | src/components/application_manager/src/commands/mobile/reset_global_properties_request.cc:214-219 | reading the texts back from the prompt array gives the profile strings again |
| ResetGlobalProperties.ChainingCounter | src/components/application_manager/src/commands/mobile/reset_global_properties_request.cc:125-133 | the number of HMI legs the request announces; defined by its body; ChainAnnounced states that it is the number of requests sent |
| ResetGlobalProperties.Aborted | src/components/application_manager/src/commands/mobile/reset_global_properties_request.cc:140-144 | Run stops before sending when the VR help is to be reset and CreateAppVrHelp gives NULL; defined by its body; AbortSendsNothing states its effect |
| ResetGlobalProperties.Requests | src/components/application_manager/src/commands/mobile/reset_global_properties_request.cc:135-198 | the UI and TTS requests Run sends for the flags; defined by its body; ChainAnnounced, UiContents and TtsContents state their number, order, counters and contents |
| ResetGlobalProperties.ChainAnnounced | src/components/application_manager/src/commands/mobile/reset_global_properties_request.cc:125-198 | unless Run aborts, it sends exactly chaining_counter (at most 2) requests: the first announces that number, the others pass none, UI comes first and TTS last, each is sent iff its leg is needed, and all use events |
| ResetGlobalProperties.AbortSendsNothing | src/components/application_manager/src/commands/mobile/reset_global_properties_request.cc:140-144 | when the VR help is to be reset and CreateAppVrHelp gives NULL, nothing is sent, although a UI leg was counted |
| ResetGlobalProperties.UiContents | src/components/application_manager/src/commands/mobile/reset_global_properties_request.cc:135-173 | UI.SetGlobalProperties carries the VR help iff VRHELPTITLE or VRHELPITEMS was listed, menuTitle "" iff MENUNAME, the default keyboard properties (EN_US, QWERTY, no dynamic entry, list [""], empty auto-complete) iff KEYBOARDPROPERTIES, and the app id |
| ResetGlobalProperties.TtsContents | src/components/application_manager/src/commands/mobile/reset_global_properties_request.cc:175-198 | TTS.SetGlobalProperties carries the reset help prompt iff HELPPROMT was listed, the timeout prompt iff TIMEOUTPROMT, and the app id |
| ResetGlobalProperties.ResetGlobalPropertiesRequest.BuildPromptArray | src/components/application_manager/src/commands/mobile/reset_global_properties_request.cc:214-219 | the loop builds PromptArray of the profile strings |
| ResetGlobalProperties.ResetGlobalPropertiesRequest.ResetHelpPromt | src/components/application_manager/src/commands/mobile/reset_global_properties_request.cc:201-224 | with NULL: APPLICATION_NOT_REGISTERED is sent and false returned; otherwise the help prompt becomes the profile's prompt array and true is returned |
| ResetGlobalProperties.ResetGlobalPropertiesRequest.ResetTimeoutPromt | src/components/application_manager/src/commands/mobile/reset_global_properties_request.cc:226-249 | the same for the timeout prompt |
| ResetGlobalProperties.ResetGlobalPropertiesRequest.ResetVrHelpTitle | src/components/application_manager/src/commands/mobile/reset_global_properties_request.cc:251-260 | with NULL: the error response and false; otherwise the VR help title is cleared and true is returned |
| ResetGlobalProperties.ResetGlobalPropertiesRequest.ResetVrHelpItems | src/components/application_manager/src/commands/mobile/reset_global_properties_request.cc:262-271 | with NULL: the error response and false; otherwise the VR help items are cleared and true is returned |
| ResetGlobalProperties.ResetGlobalPropertiesRequest.ResetProperties | src/components/application_manager/src/commands/mobile/reset_global_properties_request.cc:75-121 | the loop leaves the flags FlagsOf(properties); each prompt or VR help is reset iff its flag is up |
| ResetGlobalProperties.ResetGlobalPropertiesRequest.ResetProperty | src/components/application_manager/src/commands/mobile/reset_global_properties_request.cc:84-120 | one case of the switch: its own property is reset and its flag raised |
| ResetGlobalProperties.ResetGlobalPropertiesRequest.SendRequests | src/components/application_manager/src/commands/mobile/reset_global_properties_request.cc:125-198 | the HMI requests appended are Requests of the flags |
| ResetGlobalProperties.ResetGlobalPropertiesRequest.Run | src/components/application_manager/src/commands/mobile/reset_global_properties_request.cc:55-199 | unregistered app: only APPLICATION_NOT_REGISTERED is sent; otherwise each listed property is reset, the reset flag is set, the other state is kept, and the requests are Requests(FlagsOf(properties), …) |
| OnVrCommand.Dispatch | src/components/application_manager/src/commands/hmi/on_vr_command_notification.cc:61-107 | the branch Run takes; defined by its body; ActivationOffset, HelpCommand, OrdinaryCommand, NoActiveApplication and MaxCmdIdWraps state which inputs reach which branch |
| OnVrCommand.ActivationOffset | src/components/application_manager/src/commands/hmi/on_vr_command_notification.cc:61-83 | without wrap-around, activation happens exactly for cmd_id ≥ max_cmd_id + 2, at offset id ≥ 2 with cmd_id = max_cmd_id + id |
| OnVrCommand.HelpCommand | src/components/application_manager/src/commands/hmi/on_vr_command_notification.cc:70-78 | the Help command shows VR help when no PerformInteraction runs, and goes to PerformInteraction as a UI_ShowVrHelp event when one does |
| OnVrCommand.OrdinaryCommand | src/components/application_manager/src/commands/hmi/on_vr_command_notification.cc:85-107 | an ordinary command goes to mobile iff an app is active and the named app exists without PerformInteraction, becomes a VR_OnCommand event iff it has one, and is otherwise dropped |
| OnVrCommand.NoActiveApplication | src/components/application_manager/src/commands/hmi/on_vr_command_notification.cc:61-67 | without an active app only activation (cmd_id ≥ max_cmd_id + 2) can happen; everything else is dropped |
| OnVrCommand.MaxCmdIdWraps | src/components/application_manager/src/commands/hmi/on_vr_command_notification.cc:61-83 | with max_cmd_id = UINT_MAX: with no active app, every command ≠ 0 activates app cmd_id + 1 mod 2^32; with one, no command is an activation |
| OnVrCommand.OnVrCommandNotification.Run | src/components/application_manager/src/commands/hmi/on_vr_command_notification.cc:53-108 | the effects are exactly those of the Dispatch branch; the message is rewritten to OnCommand / TS_VR only when forwarded to mobile |
| OnSystemContext.Muted | src/components/application_manager/src/commands/hmi/on_system_context_notification.cc:43-50 | the audio state of a muted application; defined by its body; MuteAudioStream is proved to set it |
| OnSystemContext.VrUpdate | src/components/application_manager/src/commands/hmi/on_system_context_notification.cc:56-68 | UpdateVRState on values; defined by its body; UpdateVRState is proved against it and ContextChange states its effect |
| OnSystemContext.ContextStep | src/components/application_manager/src/commands/hmi/on_system_context_notification.cc:83-105 | Run on values for an active application; defined by its body; ContextChange, ContextStepIdempotent and VrSessionRoundTrip state its properties |
| OnSystemContext.Notifies | src/components/application_manager/src/commands/hmi/on_system_context_notification.cc:97-103 | Run notifies exactly when the context changes; defined by its body; Run states that one HMI status is sent iff it holds |
| OnSystemContext.ContextChange | src/components/application_manager/src/commands/hmi/on_system_context_notification.cc:56-68 | after a change of context: the app is in the new context; a media app's VR flag says whether that context is a VR session; audio is muted when the flag turns on and AUDIBLE when it turns off; a non-media app keeps audio and flag |
| OnSystemContext.ContextStepIdempotent | src/components/application_manager/src/commands/hmi/on_system_context_notification.cc:97-103 | a repeated notification of the same context changes nothing and notifies no one |
| OnSystemContext.VrSessionRoundTrip | src/components/application_manager/src/commands/hmi/on_system_context_notification.cc:43-68 | an audible media app is muted (ATTENUATED or NOT_AUDIBLE) during a VR session and gets its audio and context back afterwards |
| OnSystemContext.MuteAudioStream | src/components/application_manager/src/commands/hmi/on_system_context_notification.cc:43-50 | the audio becomes ATTENUATED when the HMI supports it, NOT_AUDIBLE otherwise |
| OnSystemContext.UnmuteAudioStream | src/components/application_manager/src/commands/hmi/on_system_context_notification.cc:52-54 | the audio becomes AUDIBLE |
| OnSystemContext.UpdateVRState | src/components/application_manager/src/commands/hmi/on_system_context_notification.cc:56-68 | the new audio state and VR flag are VrUpdate of the old ones |
| OnSystemContext.OnSystemContextNotification.Run | src/components/application_manager/src/commands/hmi/on_system_context_notification.cc:83-105 | no active app: nothing happens; otherwise the state becomes ContextStep, and one HMI status (with the new audio state and context) is sent iff the context changed |
| OnSystemContext.OnSystemContextNotification.NotifyMobileApp | src/components/application_manager/src/commands/hmi/on_system_context_notification.cc:107-109 | one HMI status notification, carrying the application's current state, is sent |
| Scenarios.FanOutOnEmptyStore | src/components/application_manager/src/application_manager_impl.cc:545-700 | a fan-out of request (1, 100) to HMI ids 1 and 2 on the empty store: the first response completes nothing, the second reports 100, and neither id 1 nor id 2 is found afterwards |
| Scenarios.FanOutToTwoHmiRequests | src/components/application_manager/src/application_manager_impl.cc:535-700 | on a fresh manager, the first two HMI ids are 1 and 2; after fanning request 100 out to them, the first response completes nothing, the second reports 100, and GetMessageChain finds no chain for either HMI id afterwards |
| Scenarios.AppIdConsumedOnce | src/components/application_manager/src/application_manager_impl.cc:1583-1600 | a stored application id is not overwritten by a second insert, is handed out once, and 0 comes back afterwards |
| Scenarios.AudioPassThruOnce | src/components/application_manager/src/application_manager_impl.cc:702-719 | begin, begin, end, end, begin give true, false, true, false, true |

## Left out

- Threads and locks: `audio_pass_thru_lock_` and the message threads are not modelled. Every operation is treated as atomic.
- DecreaseMessageChain: after `i->second.erase(j)` the source increments the erased iterator `j`, which is undefined behaviour in C++. The model reads it as "erase this entry and go on with the next one".
- DecreaseMessageChain: the scan runs over a snapshot of the (connection key, mobile correlation id) entries, taken with ChainStore.ListEntries before the first visit, and not over live iterators into maps it erases from. Under the reading above the entries visited and their order are the same.
- MessageChaining: `message_chaining.h` is not part of this model. Three of its behaviours are fixed as parameters:
  - the initial counter, a constructor argument of the manager;
  - a DecrementCounter that stops at 0;
  - an `operator==` that compares connection key, correlation id and counter.
- AddMessageChain: the out-of-memory branch (`new` returning NULL, lines 591-594) is not modelled, because allocation always succeeds in Dafny.
- UnregisterApplication: following the code, it leaves the application's message chains in place. The model does not add a cleanup that the code lacks. `delete app_to_remove` and `request_ctrl.terminateAppRequests` are recorded in a `terminatedAppRequests` log.
- Payloads: SmartObjects are opaque snapshots (`Payload`). The result of `MessageHelper::CreateAppVrHelp` is a parameter of ResetGlobalPropertiesRequest.Run, and None stands for NULL.
- ResetVrHelpTitle, ResetVrHelpItems: the Application class is not part of this model; its `reset_vr_help_title()` and `reset_vr_help()` are taken to set the VR help title and items to None (no value).
- Outside calls become logs or parameters:
  - `SendResponse`, `CreateHMIRequest`, `SendActivateAppToHMI`, `SendShowVrHelpToHMI`, `event.raise()`, `SendNotificationToMobile` and `SendHMIStatusNotification` are appended to logs;
  - the profile's help and timeout prompts and `max_cmd_id` are parameters;
  - `active_application()` is a parameter, because application activation and registration (RegisterApplication, ActivateApplication) are outside this model.
- HMI status: the HMI level in `SendHMIStatusNotification` is left out, because the level is not part of the modelled application state.
- Counter storage: `message_chain_current_id_` is a static member of the C++ class. Here it is a field, since one manager is modelled.
- The GlobalProperty, FunctionID and TriggerSource enumerations are datatypes. Their numeric codes come from MOBILE_API, which is not part of this model, so any code the switch does not name is `Unknown`.
- AddMessageChain, GetMessageChain: results and the `msg_chaining` argument are copies of a record (`Option<Chain>`), not pointers into the store. A caller's later change through the returned pointer (to the counter or the data) does not reach the store in the model, and a `msg_chaining` that points at a stored record is compared as the value the caller holds, so a copy taken before that record was decremented no longer matches it, whereas in C++ the record is compared with itself and still matches.
- GetMessageChain: like DecreaseMessageChain, it walks a snapshot of the (connection key, mobile correlation id) entries in iteration order rather than the live nested iterators of lines 688-697; the store is not changed during that walk, so the entries visited and their order are the same.
- Manager constructor: the HMI readiness and cooperation flags (`is_*_ready_response_recieved_`, `is_*_cooperating_`) are missing from the initialiser list (lines 66-85). The only instance is the function-local `static ApplicationManagerImpl instance;` of `instance()` (line 178), whose static storage is zero-initialised before the constructor runs, so these flags start out false, as in the model. The setters that raise them, from the Ready responses, are not part of this model.
- The `attenuated_supported()` flag comes from outside this model, so it is a constructor argument of the manager.
