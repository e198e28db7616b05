# Verified protocols of a smart-card agent, its prompter and its PKCS#11 module

Three cooperating processes - the agent, the Qt prompter and the PKCS#11
module - are held together by small concurrent protocols. This project models
those protocols and proves what they promise.

Each protocol is a value `State`, a datatype of atomic `Action`s (one critical
section, bus message, posted functor or GUI event each) and a total `Step`; an
action that is not enabled changes nothing. `Run` folds any sequence of actions,
so a lemma about `Run(acts)` is about every interleaving. Objects whose methods
update fields are classes: their methods are proved to take exactly the
corresponding step, or to meet their contract outright. Loops are loops.

| module | what it models |
|---|---|
| `PromptRegistry`, `PromptLifecycle`, `PrompterService` | the registry of live windows over two parallel vectors, the prompter's request/window/answer protocol, and the service's GUI-thread methods refining it |
| `EntryClock` | the holder's deadline, re-based when the form is switched |
| `PromptWire`, `CredentialKind` | the options dictionary from agent to prompter, and which credential a reply carries, end to end |
| `ChangePin` | the two captured secrets of a PIN change as descriptors |
| `CardShares`, `DeferredPublish`, `AgentFrontend` | shared ownership of card objects, their deferred publication by three threads, and the frontend's methods |
| `LoopPoster` | the queue, the eventfd and the timers that marshal onto the event loop |
| `CertificateRead` | a client that may subscribe too late to an operation's end |
| `SnapshotCache` | the PKCS#11 module's snapshot, with signals arriving mid-enumeration |
| `AuthorizedReply` | deferred replies and the gate of the object they run on |
| `ResultStore` | sealing, publishing, signalling and re-serving operation results over a table of open descriptors |
| `ObjectPath`, `Presence` | object paths, and the presence snapshot keyed by them |
| `SealedMemfd` | the write and pread loops of a sealed secret |
| `Mrz` | check digits (section 4.9 of ICAO Doc 9303 Part 3) and the MRZ payload |

Assumptions the model takes from the code's comments: object ids come from one
per-process counter and are never reused; callers of `snapshot()` are
serialised, signals are not; the agent library reads the MRZ success word as a
success only for a request that offered the MRZ; the retry policy grants another
probe only after one that could not open the card, and no more than some budget,
which is a parameter of every result about it.

## Where the code and its description differ

- The re-based entry clock is described as never reaching the sum of the two
  budgets. With an alternative budget of zero it does: `EntryClock.ShortOfTheSum`
  gives the exact condition.
- A clean snapshot cache is described as complete and up to date. `enumerate`
  can leave by an exception on a mistyped property, after the dirty mark was
  cleared: `SnapshotCache.MistypedReplyKeepsAStaleCache` is such a run, and
  `SnapshotCache.FreshExactlyUnlessMistyped` says exactly when the promise holds.
- Nor is a fresh cache always the agent as it is. A reader whose HasCard or Card
  changes announces it by PropertiesChanged, which the module does not handle:
  `SnapshotCache.SilentChangeLeavesAStaleSlot` is such a run, and
  `SnapshotCache.QuietCacheIsWhatWasFetched` gives the exact condition.
- `emitResult` of the Sign channels is described as true exactly when the store
  is ready. It is also true for a payload of another kind, and false for a
  second publication that fails over a store already ready. The contracts of
  `ResultStore.SignChannel.EmitResult` and `ResultStore.SignBatchChannel.EmitResult`
  give the exact condition, which every first own payload meets.
- A failed publication is described as leaving the store unpublished. It leaves
  an unready store unready; a store that was ready stays so, over whatever the
  failed copy left: `ResultStore.FailedCopyServesAMix`. The contracts of the publishing
  methods say exactly when what is served stays the same.
- A card pending its resolve is described as never dropped. The event loop
  swallows what a callback throws, so a card whose object could not be built
  stays pending without a resolve: `DeferredPublish.ExactlyOneResolve` gives the
  exact condition.
- Path parsing inverts printing, but not the other way round: a tail with
  leading zeros is accepted (`ObjectPath.LeadingZeroNamesTheSameObject`).

## Model

| member | source | states |
|---|---|---|
| `PromptLifecycle.AnsweredAtMostOnce` | prompter/src/PrompterService.cpp:249-342 | In every interleaving of requests, posted raises, accepts, rejects, deadlines, Cancels, Resets, form switches and deletions, a request has at most one answer. |
| `PromptLifecycle.UnansweredIsInOnePlace` | prompter/src/PrompterService.cpp:360-464 | An unanswered request is in the post queue or behind exactly one registry entry whose window stands, never both and never neither. |
| `PromptLifecycle.TimeoutExactlyByDeadline` | prompter/src/PrompterService.cpp:269-274 | The step that answers a request answers Timeout if and only if it is the deadline of the window raised for that request firing. |
| `PromptLifecycle.DeadlineAnswersTimeout` | prompter/src/PromptDialog.cpp:514-521 | A due deadline on a standing window does answer its request, with Timeout, and takes its registry entry. |
| `PromptLifecycle.NoEarlyTimeout` | prompter/src/PromptDialog.cpp:573-584 | A deadline is due only for a request that set one, and not before that budget has passed since the window was shown. |
| `PromptLifecycle.CancelIsIsolated` | prompter/src/PrompterService.cpp:466-491 | Running a Cancel changes nothing but the queued rejects, and queues one exactly when a live window has that non-empty id and was raised by that caller. |
| `PromptLifecycle.EveryRejectHasItsCause` | prompter/src/PrompterService.cpp:531-575 | In every run each queued reject stems from a Reset by an admitted caller, or from a Cancel by the caller, and with the non-empty id, of the request its window then stood for. |
| `PromptLifecycle.LateRejectIsANoOp` | prompter/src/PrompterService.cpp:264-268 | A reject delivered to a window already answered or deleted changes no answer, registry entry or window. |
| `PromptLifecycle.UnansweredCanBeAnswered` | prompter/src/PrompterService.cpp:405-429 | From every reachable state at most two further steps answer an unanswered request: none is stuck. |
| `PromptLifecycle.ArrivalIsRefusedOrPosted` | prompter/src/PrompterService.cpp:360-464 | In every run: a caller the gate refuses is answered Unauthorized, an unserved kind or a missing GUI thread Error, and nothing is posted; any other request is posted with its name, budgets and the MRZ offer of a CAN request, unanswered. |
| `PromptLifecycle.RaisingShowsOrRefuses` | prompter/src/PrompterService.cpp:249-300 | In every run a posted raise shows a window of the kind asked for with its clock armed, or answers Error exactly when its non-empty name is on screen already. |
| `PromptLifecycle.AcceptAnswersTheEntry` | prompter/src/PrompterService.cpp:276-283 | In every run an accept on a registered window answers its request once: Ok with exactly the entry and the kind on screen, OkMrz with it on the MRZ form of an offered switch, Error when nothing could be captured. |
| `PromptLifecycle.RejectAnswersCancelled` | prompter/src/PrompterService.cpp:269-274 | In every run a close by the holder, and a queued reject delivered to a registered window, answer Cancelled without a secret. |
| `PromptLifecycle.SwitchSwapsTheForms` | prompter/src/PromptDialog.cpp:618-662 | An offered switch swaps the CAN and the MRZ form of its window and answers nothing; without the offer nothing changes. |
| `PromptLifecycle.ResetRejectsEveryWindow` | prompter/src/PrompterService.cpp:519-529 | Running a Reset queues exactly one reject for each window on screen and changes nothing else. |
| `PromptLifecycle.RunInv` | prompter/src/PrompterService.cpp:239-342 | The invariant behind these results: registry entries, standing windows, posted raises and answers correspond one to one in every reachable state. |
| `PrompterService.Service.RaiseWindow` | prompter/src/PrompterService.cpp:249-300 | The method over the concrete registry takes exactly the raise step of the state machine: registered and armed, or refused with Error for a taken id. |
| `PrompterService.Service.OnFinished` | prompter/src/PrompterService.cpp:263-285 | The completion takes the entry first; only if it was there it answers, by outright cases: Timeout or Cancelled, Error, or Ok or OkMrz with exactly what was typed. |
| `PrompterService.Service.DismissOnGuiThread` | prompter/src/PrompterService.cpp:466-491 | The lookup, ownership test and queued reject are the Cancel step of the state machine. |
| `PrompterService.Service.DismissEveryWindowOnGuiThread` | prompter/src/PrompterService.cpp:519-529 | The sweep queues one reject for every registered window: the Reset step. |
| `PromptRegistry.RunIsWellFormed` | prompter/src/PromptRegistry.cpp:11-84 | After any operations the live windows are one map from handles below the next one to entries whose non-empty ids are unique. |
| `PromptRegistry.HandlesAreNeverReused` | prompter/src/PromptRegistry.cpp:20-22 | Two adds that issued handles issued different ones, in increasing order, whatever was taken in between. |
| `PromptRegistry.EraseIsRemoval` | prompter/src/PromptRegistry.cpp:57-69 | Erasing position i of both vectors removes exactly that handle's entry from the map they stand for. |
| `PromptRegistry.Registry.IndexOfPromptId` | prompter/src/PromptRegistry.cpp:26-38 | The search loop finds a position holding the id, or none exactly when the id is empty or unused. |
| `PromptRegistry.Registry.Add` | prompter/src/PromptRegistry.cpp:11-24 | On the two vectors: the new handle and entry are appended, or nothing changes when there is no window or the id is taken. |
| `PromptRegistry.Registry.Find` | prompter/src/PromptRegistry.cpp:47-55 | The entry at the handle's position, and none exactly for a handle not held. |
| `PromptRegistry.Registry.Take` | prompter/src/PromptRegistry.cpp:57-69 | The entry is returned and both vectors lose that position; a second take returns none and changes nothing. |
| `PromptRegistry.Registry.TakeAll` | prompter/src/PromptRegistry.cpp:77-84 | Every entry in order, and nothing is left; handles are still not reused. |
| `EntryClock.ExpiryExactly` | prompter/src/PromptDialog.cpp:537-566 | After any switches at any times the expiry is shown + entry, or shown + the longer budget once a switch came before the alternative would itself have run out. |
| `EntryClock.ExpiryIsTheLongerBudget` | prompter/src/PromptDialog.cpp:548-566 | With every switch before expiry: shown + entry without a switch, shown + max(entry, alternative) after one or more. |
| `EntryClock.ExpiryNeverDecreases` | prompter/src/PromptDialog.cpp:548-566 | One more switch never brings the expiry forward and never takes it away. |
| `EntryClock.ShortOfTheSum` | prompter/src/PromptDialog.cpp:537-546 | The expiry stays below shown + entry + alternative if and only if the alternative has a budget; with none it equals that sum. |
| `EntryClock.ZeroNeverExpires` | prompter/src/PromptDialog.cpp:502-510 | A zero entry budget never arms the clock, whatever is shown or switched. |
| `EntryClock.CountdownIsTheTimer` | prompter/src/PromptDialog.cpp:525-529 | The countdown shown to the holder is at every moment what the deadline timer has left. |
| `EntryClock.DialogClock.ShowEvent` | prompter/src/PromptDialog.cpp:573-584 | The first show makes the timer fire one entry budget later; no later show moves it, and without a budget there is none. |
| `EntryClock.DialogClock.RebaseOnAlternative` | prompter/src/PromptDialog.cpp:548-566 | Whatever was called before, the timer fires at shown plus what all switches so far have earned, and never earlier than before the switch. |
| `EntryClock.DialogClock.OnTimeout` | prompter/src/PromptDialog.cpp:516-521 | The window is marked expired, and never before the holder has had the entry budget. |
| `EntryClock.DialogClock.Countdown` | prompter/src/PromptDialog.cpp:525-529 | The label is computed from the fields and shows what the timer has left. |
| `PromptWire.OffersAgree` | agent/src/PrompterClient.cpp:72-78 | For every kind and option set, what the agent believes it offered is what the prompter offers after marshalling: the MRZ, exactly for a CAN request that names it. |
| `PromptWire.BuildOptionsDict` | agent/src/PrompterClient.cpp:100-164 | The dictionary carries every option that is set under its key, and no key for one at its default. |
| `PromptWire.SetKeysAreThere` | agent/src/PrompterClient.cpp:100-164 | Each routing and entry-rule key is there if and only if its option is set. |
| `PromptWire.ShownKeysAreThere` | agent/src/PrompterClient.cpp:100-164 | Each display and reader key is there if and only if its option is set. |
| `PromptWire.RoutingArrives` | prompter/src/PrompterService.cpp:387-407 | Lifting the dictionary gives back the prompt id, both deadlines and the alternative kinds. |
| `PromptWire.DisplayArrives` | prompter/src/PrompterService.cpp:146-175 | Lifting the dictionary gives back every display text. |
| `PromptWire.ReaderAndRulesArrive` | prompter/src/PrompterService.cpp:146-175 | Lifting gives back the reader identity, the attempt and the length bounds, with the prompter's defaults and clamp. |
| `CredentialKind.ChosenKindIsTheTruth` | agent/src/PrompterClient.cpp:411-437 | In every run, with any number of form switches, the agent reports MRZ exactly when its CAN request came back with an MRZ; a plain Ok carries the requested kind; Cancelled, Timeout and every failure are reported as what they were. |
| `CredentialKind.EntryReachesTheAgent` | agent/src/PrompterClient.cpp:411-437 | In every run, what the holder types on a single-secret window is the secret of the agent result, Ok, reported as an MRZ exactly when a CAN request was answered on the MRZ form. |
| `CredentialKind.RunReplies` | prompter/src/PrompterService.cpp:274-283 | Every reply of every run says the truth about the form its secret was typed into, and only a success carries one. |
| `ChangePin.EveryFdOnce` | prompter/src/PromptDialog.cpp:265-275 | Every captured descriptor is closed or handed over at most once, and exactly once when the dialog is gone, under repeated accepts, mismatches, failures and takes. |
| `ChangePin.OkReplyIsOneAccept` | prompter/src/PromptDialog.cpp:673-696 | The descriptors of an Ok reply hold the current and new entries as they stood at one single accept, where new equalled confirm. |
| `ChangePin.AcceptHandsOverBoth` | prompter/src/PromptDialog.cpp:673-696 | In every run a matching accept whose two secrets were sealed is answered with both descriptors, the first holding the current entry and the second the new one, and the edits are wiped. |
| `ChangePin.HalfACaptureIsAnError` | prompter/src/PrompterService.cpp:325-334 | In every run a matching accept with a secret missing is answered Error, hands nothing over and closes the half that was sealed; one that does not match changes nothing. |
| `ChangePin.BothOrNeither` | agent/src/PrompterClient.cpp:481-513 | The agent exposes both secrets or neither; both exactly when the reply was Ok and both could be read, and they are the two entries of one matching accept. |
| `ChangePin.Dialog.Accept` | prompter/src/PromptDialog.cpp:673-696 | The accept handler takes the accept step: idempotent capture, mismatch keeps the dialog open, completion. |
| `ChangePin.Dialog.OnFinished` | prompter/src/PrompterService.cpp:313-337 | The completion hands over a whole pair, or closes the half that was captured and answers Error. |
| `ChangePin.Dialog.TakeSecretFdPair` | prompter/src/PromptDialog.cpp:698-703 | The pair is handed over once; a second take gives none. |
| `ChangePin.Dialog.Destroy` | prompter/src/PromptDialog.cpp:265-275 | The destructor closes what was never taken. |
| `DeferredPublish.WithdrawnStaysOut` | agent/src/AgentFrontend.cpp:425-444 | Once a card's withdrawal has run it is never pending or exported in any later state, even when it fell into the off-lock construction. |
| `DeferredPublish.PendingAndExportedAreDisjoint` | agent/src/AgentFrontend.cpp:147-211 | No card is pending and exported in the same reachable state. |
| `DeferredPublish.ExactlyOneResolve` | agent/src/AgentFrontend.cpp:89-206 | A pending card never has two resolves in flight - worker probe, posted continuation, armed retry or claim - and has one if and only if building its object has not thrown. |
| `DeferredPublish.ProbeDecides` | agent/src/AgentFrontend.cpp:154-183 | In every run and for every budget: a probe that could not open a pending card, probed again less often than the budget, leaves its only resolve waiting to retry with one more re-probe counted; any other of a pending card leaves it claimed; of a withdrawn one nothing is left. |
| `DeferredPublish.ResolveMoves` | agent/src/AgentFrontend.cpp:89-145 | In every run each other action on the way takes the only resolve of its card to the one stage that follows, or ends it. |
| `DeferredPublish.PublishDecides` | agent/src/AgentFrontend.cpp:193-211 | In every run the second critical section exports exactly a card still pending, as the object just built, and ends its resolve. |
| `DeferredPublish.ExportedOnlyOnceClaimed` | agent/src/AgentFrontend.cpp:163-183 | In every run a card is claimed, built or exported only after a probe opened it, or after every re-probe of the budget was used and one more probe failed. |
| `DeferredPublish.RetryBudgetBounds` | agent/src/AgentFrontend.cpp:163-183 | For every budget of the policy: the retry count of a pending card is the number of its probes that went back to waiting for a retry, and no card has more of them than the budget. |
| `DeferredPublish.PendingCanBeExported` | agent/src/AgentFrontend.cpp:283-287 | From every reachable state at most seven further steps export a pending card whose object could be built so far. |
| `DeferredPublish.OwnersAreHolders` | agent/src/AgentFrontend.cpp:301-338 | In every interleaving each object's use count is the number of map entries and in-flight shares that hold it. |
| `DeferredPublish.NeverUsedAfterDestruction` | agent/src/AgentFrontend.cpp:322-337 | Whatever holds a share - the loop's update included - holds a live object. |
| `DeferredPublish.DestroyedExactlyOnce` | agent/src/AgentFrontend.cpp:425-441 | An object is destroyed once, exactly when its last share is gone. |
| `DeferredPublish.NeverDestroyedUnderTheMutex` | agent/src/AgentFrontend.cpp:193-209 | No step that holds the cards mutex runs a destructor. |
| `CardShares.DropIsValid` | agent/src/AgentFrontend.cpp:439-441 | Dropping a share keeps counts, holders and destructor runs in agreement. |
| `AgentFrontend.Frontend.ApplyCardResolution` | agent/src/AgentFrontend.cpp:154-183 | Dropped exactly when no longer pending, and then no resolve is left; retried exactly when the probe failed within the budget, and then its only resolve waits to retry; claimed otherwise, and then its only resolve is the claim. |
| `AgentFrontend.Frontend.ConstructCard` | agent/src/AgentFrontend.cpp:187-192 | The object is built off the lock with one owner, the claim; one that throws leaves the card pending without a resolve. |
| `AgentFrontend.Frontend.PublishCard` | agent/src/AgentFrontend.cpp:193-210 | Over the map of shared objects: a card still pending is exported and displaces nothing, a withdrawn one is handed back alive to be dropped off the lock. |
| `AgentFrontend.Frontend.WithdrawObject` | agent/src/AgentFrontend.cpp:425-441 | The card is neither pending nor exported afterwards, and its object comes back alive, still held. |
| `AgentFrontend.Frontend.DropLocal` | agent/src/AgentFrontend.cpp:439-441 | Dropping a local's share destroys the object if and only if no map entry and no other local holds it. |
| `AgentFrontend.Frontend.CopyForUpdate` | agent/src/AgentFrontend.cpp:322-331 | The update gets a share of its own, or finds the card gone. |
| `AgentFrontend.Frontend.UpdateCardType` | agent/src/AgentFrontend.cpp:332-337 | The object the update writes to is alive, whatever was withdrawn meanwhile. |
| `LoopPoster.NoLostWakeup` | agent/src/EventLoopPoster.cpp:62-80 | In every reachable state a non-empty queue has a positive counter, a poster between push and write, or a loop between read and swap. |
| `LoopPoster.QueueIsFifo` | agent/src/EventLoopPoster.cpp:169-186 | What was pushed is what was taken up, then the rest of the batch, then the queue: in order and at most once. |
| `LoopPoster.WorkIsConserved` | agent/src/EventLoopPoster.cpp:82-132 | Every submitted piece of work has run, is queued or waits for a timer, exactly once. |
| `LoopPoster.NothingQueuedIsStranded` | agent/src/EventLoopPoster.cpp:134-146 | From every reachable state, with nothing posted any more, the loop and the posters that have pushed take up everything pushed so far, in whatever order they move and waking only on a positive counter. |
| `LoopPoster.EventLoopPoster.Post` | agent/src/EventLoopPoster.cpp:62-80 | Push under the mutex, then the counter: the queue is longer by one and the loop will wake. |
| `LoopPoster.EventLoopPoster.ArmTimer` | agent/src/EventLoopPoster.cpp:96-132 | Armed: one timer more and nothing else; no timer: the work queued again and nothing else; no clock: the work run, with what it posts. |
| `LoopPoster.EventLoopPoster.OnReadable` | agent/src/EventLoopPoster.cpp:134-186 | One wakeup runs the swapped batch, its callbacks in queue order; what was queued, had run or waited for a timer, with what the callbacks posted, is all queued, run or in a timer afterwards, once. |
| `LoopPoster.EventLoopPoster.OnTimer` | agent/src/EventLoopPoster.cpp:148-167 | A due timer goes and its work runs, with what it posts. |
| `LoopPoster.BatchIsKept` | agent/src/EventLoopPoster.cpp:169-186 | No batch loses a piece of work or makes one up, through every way its timers can end and whatever its callbacks post. |
| `LoopPoster.BatchRunsInOrder` | agent/src/EventLoopPoster.cpp:169-186 | The works a batch runs are exactly those of its callbacks and of its hops that found no clock, in queue order. |
| `LoopPoster.RunNextTakesUp` | agent/src/EventLoopPoster.cpp:96-186 | What the class does with one call is what the state machine's step does, and then what the callback posts. |
| `CertificateRead.ReadIsTheTruth` | pkcs11-module/src/CertificateRead.h:108-175 | In every interleaving with the worker, a client that neither times out nor has a call fail returns the operation's true status and code, and an Ok read exactly the published list. |
| `CertificateRead.NeverWaitsInVain` | pkcs11-module/src/CertificateRead.h:132-154 | A client still waiting after the operation ended has heard Finished, has it on the way, or it could not be sent. |
| `CertificateRead.ReadNeedsNoTimeout` | agent/src/dbus/OperationAdaptorFactory.cpp:176-188 | While nothing failed, worker and client steps alone bring the read to its end, without the clock. |
| `CertificateRead.TimedOutByTheClock` | pkcs11-module/src/CertificateRead.h:149-162 | In every interleaving a read timed out only because the clock ran out while the client waited and had heard nothing. |
| `CertificateRead.ThrewByACall` | pkcs11-module/src/CertificateRead.h:108-175 | In every interleaving with a store that could be written, a read threw only because a call failed under it: no order of the two sides fetches too early. |
| `CertificateRead.GivingUpIsTold` | pkcs11-module/src/CertificateRead.h:149-162 | From every reachable state the clock ends an unheard wait as timed out and empty, and a failing call throws. |
| `CertificateRead.SettlesByTheOperation` | pkcs11-module/src/CertificateRead.h:76-93 | In every interleaving a returned read settles if and only if it did not time out and the operation itself did not fail on the way to the card. |
| `SnapshotCache.FreshExactlyUnlessMistyped` | pkcs11-module/src/DBusAgentClient.cpp:239-265 | For every run: with no enumeration running and dirty false, the cache is a complete enumeration begun after the last handled signal if and only if the last enumeration that ended met no mistyped HasCard, Card or certificate name. |
| `SnapshotCache.TypedRunsAreFresh` | pkcs11-module/src/DBusAgentClient.cpp:267-366 | While the agent's replies carry the types it publishes, such a cache is always fresh, with signals at any point. |
| `SnapshotCache.FreshIsNotMarked` | pkcs11-module/src/DBusAgentClient.cpp:239-265 | Between enumerations a complete cache begun after the last handled signal is not marked dirty, in every run. |
| `SnapshotCache.CacheShowsItsReads` | pkcs11-module/src/DBusAgentClient.cpp:285-363 | In every run the cache, dirty or not, has one slot for each reader fetched: its path, whether it holds a card, and the ids of exactly the usable certificates of one call in their order, or none for the reason named; it is complete if and only if no read failed on the way. |
| `SnapshotCache.SettlingReadIsRecorded` | pkcs11-module/src/DBusAgentClient.cpp:199-204 | In every run a read that ends for good leaves an empty slot and its card is recorded, unless a signal was handled since the enumeration began. |
| `SnapshotCache.QuietCacheIsWhatWasFetched` | pkcs11-module/src/DBusAgentClient.cpp:285-363 | A fresh cache with every signal handled shows the readers as one GetManagedObjects gave them, nothing announced since, each with the ids of exactly the usable certificates one call returned, in their order, or none for a card that settled or is not there; it shows them as they are now if and only if the last unannounced change since, if any, left them so. |
| `SnapshotCache.SilentChangeLeavesAStaleSlot` | agent/src/dbus/ReaderObject.h:70-93 | A concrete run in which a reader's properties change by PropertiesChanged alone and the clean cache keeps showing the empty reader. |
| `SnapshotCache.SettledIsOfThisGeneration` | pkcs11-module/src/DBusAgentClient.cpp:199-204 | A settled entry was recorded by an enumeration of the current generation, after a call of that generation that asking again would repeat. |
| `SnapshotCache.SettledIsNotReadAgain` | pkcs11-module/src/DBusAgentClient.cpp:329-335 | From any reachable state, until the next signal is handled, no call reads a settled card. |
| `SnapshotCache.MistypedReplyKeepsAStaleCache` | pkcs11-module/src/DBusAgentClient.cpp:294-308 | A concrete run in which a mistyped property leaves dirty false over a stale cache that keeps being served. |
| `SnapshotCache.Client.ForgetSettled` | pkcs11-module/src/DBusAgentClient.cpp:183-188 | The settled cards go and the generation rises: the handler's first step. |
| `SnapshotCache.Client.Settle` | pkcs11-module/src/DBusAgentClient.cpp:199-204 | A card is recorded only if no signal was handled since the enumeration read the generation. |
| `SnapshotCache.Client.Enumerate` | pkcs11-module/src/DBusAgentClient.cpp:267-366 | The loop takes exactly the client's steps: one slot for each reader fetched, or an exception, or an empty and incomplete result of an agent that is gone. |
| `SnapshotCache.Client.ReadCerts` | pkcs11-module/src/DBusAgentClient.cpp:329-356 | The slot has the ids of exactly the usable certificates the read returned, in their order; a settling read or a failed one leaves none, and only the failed one asks again; a certificate name of another type throws. |
| `SnapshotCache.Client.TakeSnapshot` | pkcs11-module/src/DBusAgentClient.cpp:239-265 | The cache is served untouched while clean; otherwise the stored enumeration shows what was fetched slot by slot and stays clean exactly when complete, or throws leaving the old cache. |
| `AuthorizedReply.ExactlyOneReply` | agent/src/dbus/AuthorizedReply.h:63-132 | In every interleaving of answers, dropped completions and destructions a call has at most one reply, and once released exactly one unless the bus refused to take it. |
| `AuthorizedReply.BodyOnlyWhenGranted` | agent/src/dbus/AuthorizedReply.h:104-131 | The body runs at most once and only after Granted; a refusal is sent exactly when it has not run. |
| `AuthorizedReply.AnswerGoesOn` | agent/src/dbus/AuthorizedReply.h:104-131 | In every run a denial is told as NotAuthorized, silence as NoAnswer, and a grant goes to the gate, where the body runs exactly while it is open and is refused as ObjectGone otherwise. |
| `AuthorizedReply.BodyIsRepliedTo` | agent/src/dbus/AuthorizedReply.h:32-48 | In every run a body that returned is replied to with its results if they could be sent, and with its error otherwise; an error that cannot be sent from there ends the process. |
| `AuthorizedReply.LostByTheBus` | agent/src/dbus/AuthorizedReply.h:63-132 | In every run a reply goes missing only if the bus refused a message of that call. |
| `AuthorizedReply.NothingRunsAfterClose` | agent/src/dbus/GrantGate.h:33-38 | Once close() has returned no body of that object is running and none runs in any later state, for old calls and new. |
| `AuthorizedReply.CloseOnlyWaitsForTheBody` | agent/src/dbus/GrantGate.h:33-38 | close() can finish at once or after the running body's own steps: it waits for nothing else. |
| `AuthorizedReply.GrantGate.RunIfOpen` | agent/src/dbus/GrantGate.h:21-31 | The body runs and is answered for, once and under the mutex, exactly when the gate is open; a closed gate has let none run since it closed, and the mutex is free again. |
| `AuthorizedReply.GrantGate.Close` | agent/src/dbus/GrantGate.h:33-38 | The gate is closed for good and the bodies it let run are counted up to here. |
| `AuthorizedReply.PendingReply.ReplyWith` | agent/src/dbus/AuthorizedReply.h:32-48 | The body's results, or its error, or the error of sending the results: one reply. |
| `AuthorizedReply.PendingReply.Complete` | agent/src/dbus/AuthorizedReply.h:104-131 | The reply for each outcome, and the body run once exactly when granted through an open gate. |
| `AuthorizedReply.PendingReply.Destroy` | agent/src/dbus/AuthorizedReply.h:63-74 | A reply dropped unanswered is answered with the silence; an answered one is left alone. |
| `ResultStore.PublishSealedSignBatchResult` | agent/src/dbus/TypedResultStore.cpp:91-131 | For any rows, any failing index and a failing copy: one open descriptor of its own per row in order and a ready store of those rows, or no descriptor and nothing made ready; what was served stays exactly unless a failed copy altered a ready store. |
| `ResultStore.SealStoredSignBatchResult` | agent/src/dbus/TypedResultStore.cpp:133-165 | A ready store yields fresh descriptors with the stored contents, in order, or none and nothing left open. |
| `ResultStore.SealStoredPhotos` | agent/src/dbus/TypedResultStore.cpp:25-66 | Every stored photo with bytes gets a fresh descriptor, in order; any failure leaves nothing open. |
| `ResultStore.TakenHaveBytes` | agent/src/dbus/TypedResultStore.cpp:41-60 | Exactly the photos with bytes are sealed, in their order. |
| `ResultStore.PublishSealedResult` | agent/src/dbus/TypedResultStore.cpp:68-89 | A descriptor and a ready store, or no descriptor and nothing made ready; what was served before stays the same if and only if nothing was, sealing failed, or the failed assignment left the stored artifact as it was. |
| `ResultStore.FailedCopyServesAMix` | agent/src/dbus/TypedResultStore.cpp:79-83 | A second publication that fails between its two assignments reports failure, and GetResult then serves the new bytes with the old metadata. |
| `ResultStore.SealStoredResult` | agent/src/dbus/TypedResultStore.cpp:15-23 | A fresh descriptor of the stored artifact exactly when the store is ready and sealing works. |
| `ResultStore.Store.Publish` | agent/src/dbus/TypedResultStore.h:60-71 | Ready only when the copy worked, so readers of an unready store see nothing of a failed one; what was served stays the same if and only if nothing was or the copy left it so. |
| `ResultStore.SignChannel.EmitResult` | agent/src/dbus/OperationAdaptorFactory.cpp:359-378 | True once sealed and published even if the signal throws, false otherwise, nothing left open; true exactly when ready, if and only if an artifact was published or found the store unready, or a foreign payload found it ready. |
| `ResultStore.SignBatchChannel.EmitResult` | agent/src/dbus/OperationAdaptorFactory.cpp:459-505 | True exactly when every row was sealed and copied, whatever row's marshalling fails and even if the signal throws, nothing left open; true exactly when ready under the same condition as for one document. |
| `ResultStore.SignBatchChannel.GetResult` | agent/src/dbus/OperationAdaptorFactory.cpp:407-438 | Every row of the published batch behind a fresh descriptor, or NoResult with nothing left open. |
| `ResultStore.BuildWire` | agent/src/dbus/OperationAdaptorFactory.cpp:477-494 | Adopting descriptors row by row: all of them move into the message, or a failure at any index closes every one. |
| `ResultStore.OpenedMeans` | agent/src/dbus/TypedResultStore.cpp:97-101 | What counts as opened: different descriptors, none open before, and no other one opened, closed or changed. |
| `ResultStore.FirstIsShown` | agent/src/dbus/OperationAdaptorFactory.cpp:276-286 | The first photo of a key that has bytes is in the delivered map with those bytes ... |
| `ResultStore.ShownIsFirst` | agent/src/dbus/OperationAdaptorFactory.cpp:276-286 | ... and every key of the map is such a photo's. |
| `ResultStore.PhotoChannel.EmitResult` | agent/src/dbus/OperationAdaptorFactory.cpp:257-298 | With empty entries and duplicate keys: published before signalled, or nothing made ready; nothing to show is a success without a store; no descriptor stays open; what was served stays exactly unless a failed copy altered a ready store. |
| `ResultStore.PhotoChannel.GetResult` | agent/src/dbus/OperationAdaptorFactory.cpp:209-236 | A successful reply reads, key by key, as the stored photos' map and as the map that was signalled for them; otherwise nothing stays open. |
| `ResultStore.CertificatesChannel.EmitResult` | agent/src/dbus/OperationAdaptorFactory.cpp:176-188 | Always true; a copied list is served from then on, and an uncopied one leaves an unready store serving nothing. |
| `ResultStore.CertificatesChannel.GetResult` | agent/src/dbus/OperationAdaptorFactory.cpp:148-155 | The published list, or NoResult when nothing was published. |
| `ObjectPath.PathGivesItsTail` | agent/src/AgentObjectPath.h:42-63 | A path gives the number after its last slash when that is all digits and below 2^64, and the invalid id otherwise. |
| `ObjectPath.PathNamesAnObjectExactly` | agent/src/AgentObjectPath.h:37-63 | A path names an object if and only if it is some prefix, a slash and that object's number in digits below 2^64. |
| `ObjectPath.PathsAreDecimal` | agent/src/AgentObjectPath.h:32-35 | A path is the root, the kind and the number in decimal, digit by digit. |
| `ObjectPath.ParseInvertsPrint` | agent/src/AgentObjectPath.h:32-63 | Parsing inverts printing for every id below 2^64, and rejects every larger one. |
| `ObjectPath.JunkIsRejected` | agent/src/AgentObjectPath.h:48-61 | Any non-digit in the tail gives the invalid id. |
| `ObjectPath.PrintIsInjective` | agent/src/AgentObjectPath.h:32-35 | Two slash-free kinds and two ids that print the same are the same. |
| `ObjectPath.LeadingZeroNamesTheSameObject` | agent/src/AgentObjectPath.h:55-62 | The converse fails: a tail with a leading zero parses to the id although it is not the path that prints. |
| `Presence.ResolveAgreesWithTheReaders` | agent/src/BusExporter.cpp:68-84 | After any deltas a reader's path resolves exactly when the reader holds a card, to its name and a path that parses back to the card's id. |
| `Presence.OtherPathsResolveToNothing` | agent/src/BusExporter.cpp:74-77 | A path no reader prints resolves to nothing. |
| `Presence.EachDeltaIsSeen` | agent/src/BusExporter.cpp:151-216 | After any deltas, one more shows outright: a published reader resolves as published, an update changes state and card of a known one and keeps its name, a withdrawn one is gone, and cards change nothing. |
| `Presence.OtherReadersStay` | agent/src/BusExporter.cpp:151-216 | After any deltas, one more changes no other reader's entry. |
| `Presence.SnapshotProjects` | agent/src/BusExporter.cpp:151-216 | The snapshot has one entry under each reader's own path and no other. |
| `Presence.WithdrawingACardKeepsEveryReader` | agent/src/BusExporter.cpp:202-216 | With ids given out once, withdrawing a card changes no entry. |
| `Presence.WithdrawingAReaderTakesOnlyIt` | agent/src/BusExporter.cpp:202-216 | Withdrawing a reader makes it resolve to nothing and no other resolve differently. |
| `Presence.RosterAgreesWithTheReaders` | agent/src/BusExporter.cpp:86-103 | A roster has exactly one row for each reader, with its own name and its own card's path, or none for an empty reader. |
| `Presence.Exporter.UpdateProperties` | agent/src/BusExporter.cpp:174-191 | The entry takes the delta; an unknown reader changes nothing. |
| `Presence.Exporter.PresenceRoster` | agent/src/BusExporter.cpp:86-103 | One row for each entry, in path order, with the no-card sentinel normalised. |
| `SealedMemfd.CreateThenReadIsExact` | agent/src/SecretMemfdReader.cpp:96-128 | For every schedule of partial writes, partial preads and interruptions the reader gets the sealed bytes exactly or an error; the bytes if and only if they are within the cap and all given back. |
| `SealedMemfd.InterruptionsChangeNothing` | common/SealedMemfdCreator.h:42-58 | An interrupted write anywhere changes neither the bytes nor the end. |
| `SealedMemfd.InterruptedReadsGoOn` | agent/src/SecretMemfdReader.cpp:96-117 | An interrupted pread anywhere changes neither the bytes nor the end. |
| `SealedMemfd.EnoughPiecesSuffice` | agent/src/SecretMemfdReader.cpp:96-128 | As many pieces as there are bytes, of whatever sizes, write a secret and read it back within the cap. |
| `SealedMemfd.FirstFailureEnds` | common/SealedMemfdCreator.h:42-58 | The first write that takes nothing or fails ends the loop by its error, over exactly the prefix written until then. |
| `SealedMemfd.CreatedHoldsTheBytes` | common/SealedMemfdCreator.h:33-67 | A descriptor is returned if and only if nothing refused and every byte was written, and then it is sealed and holds exactly the bytes. |
| `SealedMemfd.RefusedExactlyWhenChangeable` | agent/src/SecretMemfdReader.cpp:44-57 | The reader refuses, unread, exactly the files that lack a seal: every file anybody could still change and, unless it is empty, no other. |
| `SealedMemfd.SealedReadIsUndisturbed` | agent/src/SecretMemfdReader.cpp:96-117 | Whatever anybody tries between the preads of a sealed file, the reader gets what it would have got undisturbed. |
| `SealedMemfd.MakeSealedMemfd` | common/SealedMemfdCreator.h:33-67 | The write loop does what its outcomes say, and closes the descriptor on every failure. |
| `SealedMemfd.ReadSecret` | agent/src/SecretMemfdReader.cpp:34-134 | The pread loop fills the buffer as its outcomes say; the descriptor is closed and the buffer zeroed on every way out. |
| `Mrz.ComputeCheckDigit` | prompter/src/MrzInputWidget.cpp:62-72 | The digit is the sum modulo ten of each character's worth times 7, 3, 1 by its place, with 0 to 9, the filler 0 and A to Z, in either case, 10 to 35; none exactly for a character outside that table. |
| `Mrz.EveryCharacterCounts` | prompter/src/MrzInputWidget.cpp:26-72 | Whatever the other characters are, one adds its worth times 7, 3 or 1 by its place to the digit modulo ten; a field of fillers has the digit 0. |
| `Mrz.SubstitutionIsNoticed` | prompter/src/MrzInputWidget.cpp:62-80 | A single substitution changes the check digit if and only if the values differ by other than a multiple of ten. |
| `Mrz.PaddingKeepsTheDigit` | prompter/src/MrzInputWidget.cpp:37-47 | Padding with the filler changes no verification. |
| `Mrz.ComputedDigitVerifies` | prompter/src/MrzInputWidget.cpp:74-80 | A field verifies against its computed digit and no other. |
| `Mrz.PayloadCarriesItsFields` | prompter/src/MrzInputWidget.cpp:145-159 | Every payload parses into the upper-cased number filled up to nine, both dates as two digits each of year, month and day, and digits that verify, padded and unpadded. |
| `Mrz.PayloadsAreTheSameOnlyForTheSameEntry` | prompter/src/MrzInputWidget.cpp:145-159 | Two entries make the same payload if and only if number (up to case) and dates (up to the century) are the same. |
| `Mrz.MrzInputWidget.CapturePayload` | prompter/src/MrzInputWidget.cpp:145-173 | The three lines are built with their computed digits, and the three inputs are cleared. |

## Left out

- CertificateRead.ReadIsTheTruth: `readCertificates` is modelled as the client half of a state machine, one step for each bus call, not as a class; its locals live in the state.
- SnapshotCache.Client.Enumerate: the method form covers an enumeration with no signal in between; enumerations with signals at any step are covered by the state machine.
- ResultStore.SealRows: allocation failures while a row is copied inside the seal loop are not modelled; failures of sealing, of copying the payload into the store, and of building a message at any index, are.
- ResultStore.PhotoChannel.EmitResult: the `std::map` of descriptors is a sequence of entries with distinct keys; what a receiver reads from it is a map.
- PromptLifecycle.RunInv: posted functors and queued rejects may run in any order, which includes the order the event queue runs them in.
- Mrz.ComputeCheckDigit: letters and digits outside ASCII, which Qt also classifies, are not modelled; no input the widget's validator lets in has any.
- CertificateRead.TimedOutByTheClock: the Cancel that a timed-out read sends without awaiting a reply is not modelled.
- LoopPoster.WorkIsConserved: allocation failures, after which the poster drops a callback, are not modelled; every ending of arming a timer is.
- LoopPoster.EventLoopPoster.OnReadable: the class takes whole turns of the loop; posts from other threads between its steps are covered by the state machine.
- SealedMemfd.ReadSecret: a failing `fstat` and a negative size are not modelled; every other check is.
- AuthorizedReply.ExactlyOneReply: an error reply that cannot be sent from inside the granted body ends the process, and with it the run; nothing is said of calls outstanding then.
- The bus-less path that publishes a card synchronously when no event loop is attached: no concurrency is left in it.
- The reader power hold: its verdict and release are library code.
- Qt strings are taken as identical to their UTF-8 form; widgets, layout and localised text are only the events they deliver.
- The spelling of wire keys, kinds and statuses: names are constructors.
- The dictionary of the change-PIN request: the same marshalling with other keys.
- Caller identity is a pid and a yes or no from the gate; how the gate decides is not modelled.
- Handles, generations and ids do not wrap around at 64 bits, except where a path is parsed.
- The public-key cache of the PKCS#11 module, and two concurrent `snapshot()` callers.
- Best-effort scrubbing of Qt strings, which copy-on-write defeats.
- Configuration, signing options, master lists and error-name tables: one-branch lookups.
