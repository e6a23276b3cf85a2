# Verification of the CUKTECH BLE integration

A Dafny model of the parts of the integration whose correctness depends on order, interleaving or byte
layout, and proofs about them. `dafny verify dfyconfig.toml` checks everything.

## What is modelled

- **Coordinator** (`CoordinatorModel`, `CoordinatorInvariants`, `CoordinatorHistory`, `CoordinatorLease`,
  `CoordinatorTheorems`, `CoordinatorEffects`, `CoordinatorConnects`, `CoordinatorObject`). One event is the code
  between two awaits. The lock has one holder; lost links, disconnect callbacks, session errors, pushes, queued
  publishes, timers, clean-up tasks, shutdown and cancellations may happen between any two of its steps. An event that
  cannot happen changes nothing, so every list of events is a run. The ghost log holds what entities were shown, and
  the ledger holds every resource ever created. The class has the fields of the original. Its way in is `Happen`,
  which records the event and keeps `Valid`: the fields are those of the recorded run. The other methods are its
  parts. From `Valid` the main promises follow for the fields themselves.
- **Encrypted MIOT session** (`MiotTransport`, `MiotReassembly`, `MiotRejection`, `MiotFraming`, `SessionModel`,
  `SessionTheorems`, `SessionCodec`, `SessionObject`, `PushHistory`). Decryption is a function that yields a plaintext
  or rejects the frame.
- **Login** (`Channels`, `Parcels`, `AuthParcels`, `LoginModel`, `LoginExchange`, `LoginComposition`, `LoginSafety`,
  `LoginObject`). Host and device are reactive parties joined by queues; the key derivation and the HMAC are functions
  both share, with 32-byte HMACs. The device follows tests/test_xiaomi_mi.py:86-118, extended by the inline variants
  and by any chunk size; it insists on the minimal parcel count, which it reckons from the MTU itself, as
  custom_components/cuktech_ble/lib/xiaomi/auth.py:204-208 says the firmware does.
- **Offline decoder** (`L2cap`, `Duplex`, `LoginEpochs`, `MiotExtract`, `RowDecoder`).
- **Property codec** (`Properties`).

## What the code does not meet

- Cancelling a poll, a write or an idle release while it is inside `_disconnect` strands the client: the
  fields are empty, and no later event releases it (`CoordinatorTheorems.CancelledPollStrandsTheClient`).
  `ReleasedExactlyOnceIff` and `StrandedIff` give the exact condition.
- A processed disconnect can be left without a clean-up: while the clean-up task of an earlier client waits for
  the lock, no other is started, and when it runs it finds a client that is not its own
  (`CoordinatorTheorems.CleanupOfAnotherClient`). `InvalidationBites` gives the exact condition.
- A frame that does not decrypt is not always harmless: its counter is looked at first, so a garbled frame with a
  used-up counter ends the session and breaks the waiting request
  (`SessionTheorems.GarbledFrameBreaksPendingRequest`). `UndecryptableFrame` gives the exact condition.
- Inline frames that arrive inside a message are delivered after it. If one of them carries a lower counter than
  the message, the reader stops (`SessionObject.MessageIsRead`).
- `_send_encrypted` puts the counter into every parcel (custom_components/cuktech_ble/lib/xiaomi/session.py:450),
  while the receiving rule and docs/protocol.md:60-62 expect it in the first parcel only. The model follows the
  code: a request survives exactly when it fits one parcel (`MiotFraming.OutboundRoundTripIff`).
- `iter_att_frames` keeps one buffer per ACL handle for both directions
  (`Duplex.WriteComesOutAsNotification`). `Duplex.DecodesExactlyIff` says exactly which logs it decodes.
- More than 16 inline frames in front of the last parcel of a message end the session
  (`MiotReassembly.MessageDeliveredIff`).
- `collect_pushes` can take new frames for old ones when frames repeat and the history overflows
  (`PushHistory.RepeatedFramesAreMissed`); `PushesExactIff` gives the exact condition.
- A parcel frame fits the write limit only from an MTU of 23 on (`AuthParcels.FramesFitIff`).
- The offline decoder does not know the two-byte value type that the live parser accepts
  (`RowDecoder.ResponseRowsAgreeIff`).

## Conventions

- Bytes are a newtype over 0..255, counters and indices are numbers with explicit 16-bit reads, times are
  whole microseconds. Python's slices that run past the end are written out.
- Exceptions are results or stopped phases. The network is a list of what arrives (a frame, silence longer
  than a timeout, an overflow) and a number of writes that still succeed.
- A connection attempt's client, auth object and session carry the attempt's number. Clean-up releases the
  session, then the auth object, then the client.
- The setup of a connection is three stages (client, auth object, session) with an arbitrary number of
  failures and cancellations between them. A device that is not visible is a failed dial.
- Lock waiters are served in any order, which covers the first-in-first-out order of asyncio.
- A snapshot is the property map itself: what `_build_snapshot` makes of it is a function of the map.

## Model

| member | source | states |
|---|---|---|
| CoordinatorTheorems.CacheEqualsReplay | custom_components/cuktech_ble/coordinator.py:457-530 | Over every run: the baseline is None or the current session; with a baseline, the property map equals the last completed poll response overlaid, in arrival order, with every push handled since that poll's request began; with no session both maps are empty |
| CoordinatorTheorems.NoStaleSuccess | custom_components/cuktech_ble/coordinator.py:120-169 | Over every run: between any processed disconnect or session error and the next snapshot shown as good lies a whole poll, begun and completed after it |
| CoordinatorTheorems.ShownIsReplay | custom_components/cuktech_ble/coordinator.py:493-530 | Over every run: every snapshot ever shown as good, by a poll or by a queued publish, was at that moment the replay of the log |
| CoordinatorTheorems.InvalidationBites | custom_components/cuktech_ble/coordinator.py:120-169 | A processed disconnect or fatal error on the current connection shows the failure, voids the baseline and leaves every poll or write in flight outdated; a clean-up of this very connection is pending afterwards if and only if none was pending before or one of this connection |
| CoordinatorTheorems.CleanupOfAnotherClient | custom_components/cuktech_ble/coordinator.py:139-146 | A concrete run, in the order in which the lock is asked for, in which a processed disconnect is followed by no clean-up: the only clean-up task belongs to an earlier client, and the lost client stays installed with the lock free |
| CoordinatorTheorems.NoLostUpdate | custom_components/cuktech_ble/coordinator.py:507-530 | Over every run: with a current baseline, either the last thing shown is the property map or a publish for that session is queued; the pending flag implies such a queued callback |
| CoordinatorTheorems.ConnectionConservation | custom_components/cuktech_ble/coordinator.py:207-400 | Over every run: each client, auth object and session ever created is in exactly one place (being set up, installed, or handed to clean-up), the three fields agree, and a client whose loss was seen during setup is never installed |
| CoordinatorTheorems.StrandedIff | custom_components/cuktech_ble/coordinator.py:371-400 | Over every run: a resource handed to clean-up is abandoned unreleased if and only if an unshielded cancellation hit the clean-up while that resource was still waiting |
| CoordinatorTheorems.ReleasedExactlyOnceIff | custom_components/cuktech_ble/coordinator.py:283-400 | With the lock free, a created resource is installed or was released, exactly one of the two and exactly once, if and only if no such cancellation ever hit it; otherwise it is neither |
| CoordinatorTheorems.NeverReleasedLater | custom_components/cuktech_ble/coordinator.py:371-400 | Over every run and every continuation: a resource stranded once is never released and never installed again |
| CoordinatorTheorems.CancelledPollStrandsTheClient | custom_components/cuktech_ble/coordinator.py:350-387 | A concrete run in which cancelling a poll inside `_disconnect` leaves a connected client that nothing releases under any further events |
| CoordinatorTheorems.LeaseBelongsToConnection | custom_components/cuktech_ble/coordinator.py:532-558 | Over every run: with a positive lease the registered timer is pending and belongs to the installed client; every other timer is cancelled, finished, or the one inside `_disconnect` |
| CoordinatorTheorems.OnlyTheLeaseDropsAClient | custom_components/cuktech_ble/coordinator.py:543-558 | Over every run: a timer that takes an installed client away is the registered one, armed for that client under a positive lease; a timer of another client changes neither the connection nor the cache |
| CoordinatorTheorems.NeverCancelledInside | custom_components/cuktech_ble/coordinator.py:180-204 | Over every run and next event: a timer inside `_disconnect` stays there or finishes; re-arming and shutdown never cancel it |
| CoordinatorTheorems.PollsNeverExtendTheLease | custom_components/cuktech_ble/coordinator.py:445-449 | Over any number of polls, pushes and publishes on one connection the timers stay as they were |
| CoordinatorTheorems.StepGoesOn | custom_components/cuktech_ble/coordinator.py:207-209 | From the moment shutdown is requested no step installs a connection; shutdown is never taken back |
| CoordinatorTheorems.ShutdownIsFinal | custom_components/cuktech_ble/coordinator.py:180-204 | Once the locked part of shutdown is over, after any further events nothing is installed, nobody holds the lock, and everything created was handed over |
| CoordinatorEffects.PollEnds | custom_components/cuktech_ble/coordinator.py:463-493 | Over every run with a poll's request in flight: its answer is shown if and only if it parses and the generation, session and client are those of the start and the client is connected; then the lock is free, the baseline is the session, and every property has the value last pushed since the request began, or else the response's; in every other case nothing is shown, the fields and maps are empty and the three resources are being released |
| CoordinatorEffects.PushIsMerged | custom_components/cuktech_ble/coordinator.py:495-523 | Over every run, for every event: if it comes from the installed session and parses, both maps hold, for each of its properties, its last value, every other property keeps its value, the log grows by exactly this push, and a publish is queued if and only if the baseline is the session, none is pending, and some entry changed the map; otherwise nothing changes |
| CoordinatorEffects.PublishShowsIff | custom_components/cuktech_ble/coordinator.py:525-530 | A queued publish shows the property map if and only if its session is still installed and is the baseline |
| CoordinatorEffects.WriteEnds | custom_components/cuktech_ble/coordinator.py:424-449 | Over every run with a write's request in flight: it counts if and only if generation, session, client and link are those of the start; then all earlier timers are off and, with a positive lease, a new one sleeps for this client; else the fields and maps are empty and nothing good is shown |
| CoordinatorEffects.RequestEndsEarly | custom_components/cuktech_ble/coordinator.py:424-444 | A request that fails empties the fields and maps and shows nothing good; one that is cancelled only gives the lock back |
| CoordinatorEffects.ReleaseRunsToItsEnd | custom_components/cuktech_ble/coordinator.py:371-400 | The releases walk the list in order, one each, and then the holder dials, raises (a poll shows the failure), or is finished with its task's fields reset |
| CoordinatorEffects.DetachesAll | custom_components/cuktech_ble/coordinator.py:350-369 | `_disconnect` empties the fields and maps at once, raises the generation, and releases session, auth object and client in this order |
| CoordinatorEffects.CleanupReleasesItsClient | custom_components/cuktech_ble/coordinator.py:171-178 | A clean-up task with the lock detaches and releases its own client if that is still installed, and otherwise only ends |
| CoordinatorEffects.TimerReleasesItsClient | custom_components/cuktech_ble/coordinator.py:543-558 | A timer with the lock detaches and releases its own client if that is still installed, and otherwise only ends; it is no longer registered |
| CoordinatorEffects.ShutdownReleasesAll | custom_components/cuktech_ble/coordinator.py:180-192 | Shutdown cancels the registered timer, detaches and releases whatever is installed, and is then done |
| CoordinatorConnects.ReusedIff | custom_components/cuktech_ble/coordinator.py:207-240 | With the lock and no shutdown, the installed connection is kept if and only if its client is connected and its session can still send; otherwise it is released before the next attempt |
| CoordinatorConnects.RefusedInShutdown | custom_components/cuktech_ble/coordinator.py:207-209 | After shutdown was requested a job creates nothing, releases what is installed, and a poll shows the failure |
| CoordinatorConnects.ReplacedAfterRelease | custom_components/cuktech_ble/coordinator.py:211-231 | A lost or exhausted connection is released, all three parts, and then a new attempt starts from the current generation |
| CoordinatorConnects.InstalledIff | custom_components/cuktech_ble/coordinator.py:295-323 | A finished setup is installed, with a new timer of its own under a positive lease and the request on its way, if and only if no shutdown was requested, the generation is that of its start, and the client is connected; otherwise all it built is handed over and nothing is installed |
| CoordinatorConnects.FirstPollShowsTheAnswer | custom_components/cuktech_ble/coordinator.py:207-493 | From every reachable state with nothing installed, an undisturbed poll installs one new connection and shows, for every property, exactly the response's last entry |
| CoordinatorConnects.FirstWriteCounts | custom_components/cuktech_ble/coordinator.py:403-449 | From every reachable state with nothing installed, an undisturbed write installs one new connection, counts, and leaves a timer of that connection sleeping under a positive lease |
| CoordinatorConnects.FailedSetupHandsOver | custom_components/cuktech_ble/coordinator.py:301-340 | A failed or cancelled setup hands over exactly what it has built, session before auth object before client, and installs nothing |
| CoordinatorConnects.DialFailsClean | custom_components/cuktech_ble/coordinator.py:233-250 | An attempt that finds no connection creates nothing, gives the lock back, and a poll that was not cancelled shows the failure |
| CoordinatorConnects.FirstCancellationIsAbsorbed | custom_components/cuktech_ble/coordinator.py:308-322 | The first cancellation of a failed setup's clean-up changes nothing but its shield |
| CoordinatorConnects.AbandonedRunsToItsEnd | custom_components/cuktech_ble/coordinator.py:325-340 | Each of them is released once, in order; then a poll that was not cancelled shows the failure |
| CoordinatorConnects.LossInSetup | custom_components/cuktech_ble/coordinator.py:122-128 | A loss noticed during setup raises the generation only, and the finished setup is then not installed |
| CoordinatorConnects.LossKeepsTheFields | custom_components/cuktech_ble/coordinator.py:129-146 | A loss of the installed connection leaves fields, maps, timers and lock as they are and starts the clean-up of this client if none is running |
| CoordinatorConnects.StrangersAreIgnored | custom_components/cuktech_ble/coordinator.py:120-153 | Callbacks, session errors and pushes of anybody but the current connection change nothing |
| CoordinatorConnects.UnseenLossIsFoundOut | custom_components/cuktech_ble/coordinator.py:424-474 | A link that drops without a callback: a poll in flight is not shown, a write in flight does not count, and the next job replaces the connection |
| CoordinatorConnects.ExhaustedIsReplaced | custom_components/cuktech_ble/coordinator.py:211-222 | Once the session's counters are used up the next job releases the connection and starts a new attempt |
| CoordinatorConnects.TimersMoveOn | custom_components/cuktech_ble/coordinator.py:543-558 | A sleeping timer that fires waits for the lock; a cancelled one ends and is no longer registered; any other timer does neither |
| CoordinatorConnects.ReleaseIsCutShort | custom_components/cuktech_ble/coordinator.py:371-400 | A release that is cancelled gives the lock back, leaves the rest behind, and ends the task that held the lock; a shutdown is then not done |
| CoordinatorInvariants.GenerationNeverDecreases | custom_components/cuktech_ble/coordinator.py:120-169 | No event decreases the connection generation |
| CoordinatorInvariants.ShapeKept | custom_components/cuktech_ble/coordinator.py:207-400 | Every event keeps: the three fields all set to one connection or all empty, empty maps without a session, and a generation bound for whoever holds the lock |
| CoordinatorInvariants.AccountedKept | custom_components/cuktech_ble/coordinator.py:283-400 | Every event keeps the books of a resource: created at most once, and in exactly one place |
| CoordinatorHistory.RecordedKept | custom_components/cuktech_ble/coordinator.py:457-530 | Every event keeps: cache equals replay, the poll in flight knows the pushes since it began, every shown snapshot is justified, and nothing shown is out of date without a queued publish |
| CoordinatorLease.LeasedKept | custom_components/cuktech_ble/coordinator.py:532-558 | Every event keeps the ownership of timers and the lease of the installed client |
| CoordinatorLease.ClosedKept | custom_components/cuktech_ble/coordinator.py:180-204 | Every event keeps: after the release of a shutdown there is no client and no lock holder |
| CoordinatorLease.RejectsKept | custom_components/cuktech_ble/coordinator.py:293-304 | Every event keeps: a client whose loss was noticed during its setup has an outdated setup generation, so it cannot be installed |
| CoordinatorObject.Coordinator.HandleDisconnect | custom_components/cuktech_ble/coordinator.py:120-146 | The method on the object's fields is the machine's step: invalidate setup, or fail and start one clean-up task |
| CoordinatorObject.Coordinator.HandleSessionError | custom_components/cuktech_ble/coordinator.py:148-169 | The method is the machine's step for a fatal session error |
| CoordinatorObject.Coordinator.MergeItems | custom_components/cuktech_ble/coordinator.py:507-514 | The loop over event items leaves both maps overlaid with the items of status 0, and reports exactly whether the property map changed |
| CoordinatorObject.Coordinator.HandleNotification | custom_components/cuktech_ble/coordinator.py:495-523 | The method is the machine's step for a push, of which CoordinatorEffects.PushIsMerged says what it does |
| CoordinatorObject.Coordinator.PublishNotificationUpdate | custom_components/cuktech_ble/coordinator.py:525-530 | The method is the machine's step for a queued publish |
| CoordinatorObject.Coordinator.ArmIdleRelease | custom_components/cuktech_ble/coordinator.py:532-541 | The method is the machine's re-arm: cancel the registered timer, register one for this client if the lease is positive |
| CoordinatorObject.Coordinator.IdleReleaseAfter | custom_components/cuktech_ble/coordinator.py:543-558 | The method is the machine's step of a timer that got the lock |
| CoordinatorObject.Coordinator.Disconnect | custom_components/cuktech_ble/coordinator.py:350-369 | The method clears the fields and maps, raises the generation if anything was attached, and hands what was attached to clean-up, as the machine does |
| CoordinatorObject.Coordinator.EnsureConnected | custom_components/cuktech_ble/coordinator.py:207-240 | The method is the machine's decision: refuse in shutdown, reuse, reconnect an exhausted or lost connection, or dial |
| CoordinatorObject.Coordinator.FinishPoll | custom_components/cuktech_ble/coordinator.py:463-493 | The method is the machine's end of a poll, of which CoordinatorEffects.PollEnds says what it does |
| CoordinatorObject.Coordinator.FinishWrite | custom_components/cuktech_ble/coordinator.py:424-449 | The method is the machine's end of a write: reject, or extend the lease |
| CoordinatorObject.Coordinator.Happen | custom_components/cuktech_ble/coordinator.py:120-558 | Every event changes the fields as the machine's step changes the state, is recorded, and keeps the fields those of the recorded run |
| CoordinatorObject.Coordinator.Live | custom_components/cuktech_ble/coordinator.py:120-558 | Any list of events leaves the object in the state of that run |
| CoordinatorObject.Coordinator.PropertyValuesAreReplay | custom_components/cuktech_ble/coordinator.py:457-530 | On the fields: the baseline is None or the session; the property map is the last completed poll overlaid with every push since it began; both maps are empty without a session |
| CoordinatorObject.Coordinator.NoUpdateIsLost | custom_components/cuktech_ble/coordinator.py:507-530 | On the fields: what was shown last is the property map or a publish is queued; the pending flag implies a queued publish for the current session |
| CoordinatorObject.Coordinator.EveryResourceHasOnePlace | custom_components/cuktech_ble/coordinator.py:207-400 | On the fields: the three belong together, every created resource is in one place, and no client lost during setup is installed |
| CoordinatorObject.Coordinator.IdleTaskBelongsToClient | custom_components/cuktech_ble/coordinator.py:532-558 | On the fields: with a positive lease the idle task of an installed client is pending and its own |
| CoordinatorObject.Coordinator.GoodOnlyAfterWholePoll | custom_components/cuktech_ble/coordinator.py:120-169 | On the object's history: after a loss nothing is shown as good until a whole poll began and completed |
| SessionTheorems.SendCountersNeverReused | custom_components/cuktech_ble/lib/xiaomi/session.py:286-322 | Over every run of requests, failures, cancellations and re-subscriptions: at most 65536 encryptions, counters strictly increasing within 0..65535, all nonces different |
| SessionTheorems.NonceInjective | custom_components/cuktech_ble/lib/xiaomi/session.py:68-72 | The 12-byte nonce determines the counter |
| SessionTheorems.NonceLayout | custom_components/cuktech_ble/lib/xiaomi/session.py:68-72 | The nonce is the four IV bytes, four zero bytes, and the counter with its low byte first |
| SessionTheorems.ReceiveOrder | custom_components/cuktech_ble/lib/xiaomi/session.py:343-428 | Over every run: delivered counters strictly increase, each is routed once, and the fatal callback fires at most once and never while closing |
| SessionTheorems.UndecryptableFrame | custom_components/cuktech_ble/lib/xiaomi/session.py:353-368 | A frame that does not decrypt changes no counter and delivers nothing; it changes nothing at all if and only if its counter is not used up; with a used-up counter it breaks the pending request, stops the reader and reports unless closing or reported |
| SessionTheorems.GarbledFrameBreaksPendingRequest | custom_components/cuktech_ble/lib/xiaomi/session.py:353-361 | A concrete run in which a garbled frame with a used-up counter breaks a waiting request |
| SessionTheorems.LastCounterEndsDelivery | custom_components/cuktech_ble/lib/xiaomi/session.py:370-404 | Over every run: a frame with counter 65535 is delivered, the reader stops on it, and no frame is ever delivered after it |
| SessionTheorems.NothingAfterLast | custom_components/cuktech_ble/lib/xiaomi/session.py:354-358 | After that nothing is ever delivered again, whatever happens |
| SessionTheorems.Routing | custom_components/cuktech_ble/lib/xiaomi/session.py:370-399 | Over every run: each decrypted frame went to exactly one of response, callback or log; a response carries its request's own two sequence bytes and an opcode that answers the request's, both written out byte by byte; callbacks got exactly the property events; no request completes or returns twice |
| SessionTheorems.FrameGoesWhere | custom_components/cuktech_ble/lib/xiaomi/session.py:370-399 | Over every run: a decrypted frame completes the open listed request if and only if bytes 2 and 3 agree and the opcodes are one of 0520/0520, 0c20/0b20, 2420/6620, 3320/0e20, 3320/1c20, 3320/9320, or equal outside these four requests; otherwise it goes to the owner if and only if it is a 0f20, or a 0c20 with flag 04 |
| SessionTheorems.RequestCompletes | custom_components/cuktech_ble/lib/xiaomi/session.py:286-341 | Over every run: a request that is sent and answered so returns exactly this answer and has spent one counter |
| SessionTheorems.RequestGoesOutIff | custom_components/cuktech_ble/lib/xiaomi/session.py:286-320 | A request is encrypted, under the next counter, if and only if it has four bytes, the session is not closing, its reader runs and the counter is at most 65535; with used-up counters the owner is told once |
| SessionTheorems.UnsubscribedIsSilent | custom_components/cuktech_ble/lib/xiaomi/session.py:204-233 | After unsubscribing the waiting request is withdrawn, no frame is read, no request goes out, the owner is told nothing, and no counter has changed |
| SessionTheorems.SubscribedAgain | custom_components/cuktech_ble/lib/xiaomi/session.py:182-202 | Subscribed again the reader runs, both counters are where they were, and the next request is encrypted under the next counter |
| SessionCodec.PollIsAnswered | custom_components/cuktech_ble/lib/xiaomi/properties.py:47-63 | Over every run: whatever answer to an encoded get request the codec accepts under its sequence, the session passes it to the caller |
| SessionCodec.WriteIsAnswered | custom_components/cuktech_ble/lib/xiaomi/properties.py:152-217 | Over every run: the one answer that `set_property` accepts under the sequence of an encoded set request completes that request |
| SessionCodec.EventsReachTheOwner | custom_components/cuktech_ble/lib/xiaomi/session.py:379-392 | Over every run: a payload that parses as an event reaches the owner, unless a request with opcode 0f20 takes it as its answer |
| SessionTheorems.EventsAreNotAnswers | custom_components/cuktech_ble/lib/xiaomi/session.py:370-399 | Over every run: a property event answered only requests whose opcode is 0f20 |
| SessionTheorems.SequenceOfRun | custom_components/cuktech_ble/lib/xiaomi/session.py:267-273 | Over every run: after k calls the next sequence is ((k + 1) mod 65535) + 1 |
| SessionTheorems.SequencesDiffer | custom_components/cuktech_ble/lib/xiaomi/session.py:267-273 | Any two of 65535 consecutive sequences differ |
| SessionTheorems.LateAnswerMatchesNothing | custom_components/cuktech_ble/lib/xiaomi/session.py:300-341 | A late answer with the sequence of one of the last 65534 other requests cannot complete the request in the slot |
| SessionModel.SoundKept | custom_components/cuktech_ble/lib/xiaomi/session.py:286-428 | Every event keeps the invariants behind these theorems: counters, slot, answers, routes, fatal report |
| SessionObject.MessageIsRead | custom_components/cuktech_ble/lib/xiaomi/session.py:343-524 | From bytes to plaintexts, for a parcelled message with up to 16 inline frames in between, parcels in any order and repeated: the reader lives on, having routed the message and then every inline frame, if and only if the counters rise in that order |
| SessionObject.SurvivesIff | custom_components/cuktech_ble/lib/xiaomi/session.py:353-404 | Of frames that all decrypt the reader survives exactly those with rising counters below 65535 |
| SessionObject.ReadAllFeeds | custom_components/cuktech_ble/lib/xiaomi/session.py:343-368 | The reader routes exactly what the transport yields, in order, up to the frame behind which a dropped notification is noticed, and stops there |
| SessionObject.FeedDelivers | custom_components/cuktech_ble/lib/xiaomi/session.py:353-399 | Decryptable frames with rising counters are all delivered and routed and the reader goes on |
| SessionObject.MiSession.RecvEncrypted | custom_components/cuktech_ble/lib/xiaomi/session.py:454-524 | The nested receive loops compute the transport's receive function |
| SessionObject.MiSession.CollectParcels | custom_components/cuktech_ble/lib/xiaomi/session.py:481-516 | The inner loop computes the transport's collect function, deferring inline frames |
| SessionObject.MiSession.ReaderLoop | custom_components/cuktech_ble/lib/xiaomi/session.py:343-404 | The reader loop computes the composition of receiving and routing, with the check for dropped notifications before each frame, until it blocks or stops |
| SessionObject.MiSession.HandleFrame | custom_components/cuktech_ble/lib/xiaomi/session.py:353-404 | One frame: replay check, decryption, routing, exhaustion, as in the machine |
| SessionObject.MiSession.RoutePlaintext | custom_components/cuktech_ble/lib/xiaomi/session.py:370-399 | One plaintext goes where the machine says and the counter moves behind it |
| SessionObject.MiSession.StopReading | custom_components/cuktech_ble/lib/xiaomi/session.py:405-415 | A stopping reader fails the pending response and reports once |
| SessionObject.MiSession.ReportFatalError | custom_components/cuktech_ble/lib/xiaomi/session.py:417-428 | The owner is told at most once and not while closing |
| SessionObject.MiSession.TakeNextSequence | custom_components/cuktech_ble/lib/xiaomi/session.py:267-273 | Returns the old sequence and skips 0 |
| SessionObject.MiSession.BeginSend | custom_components/cuktech_ble/lib/xiaomi/session.py:286-320 | The counter is spent before anything can fail; a refused request encrypts nothing |
| MiotReassembly.MessageThenInlines | custom_components/cuktech_ble/lib/xiaomi/session.py:454-524 | Parcels in any order with repeats before and after completion, mixed with up to 16 inline frames: the exact ciphertext and counter first, then all inline frames in arrival order, each acknowledged once |
| MiotReassembly.MessageDeliveredIff | custom_components/cuktech_ble/lib/xiaomi/session.py:481-524 | A message is delivered whole if and only if at most 16 inline frames came before its last parcel; what is deferred, written and remembered is stated exactly |
| MiotTransport.NeverAsserts | custom_components/cuktech_ble/lib/xiaomi/session.py:516-518 | Whatever arrives, the assertion on the parcel counter never fails |
| MiotTransport.ParcelIsNeverInline | custom_components/cuktech_ble/lib/xiaomi/session.py:488-515 | A parcel of a message of at most 64 parcels is never taken for an inline frame or an announcement |
| MiotRejection.AnnouncementTakenIff | custom_components/cuktech_ble/lib/xiaomi/session.py:472-482 | An announcement is taken up, with its reply, if and only if it counts 1 to 64 parcels and the reply can be written; a wrong count gets no reply |
| MiotRejection.MessageBrokenBy | custom_components/cuktech_ble/lib/xiaomi/session.py:484-515 | While parcels are missing: silence, an index outside the count, and a first parcel without its counter each end the message; frames too short to be parcels are skipped |
| MiotRejection.InlineIsDelivered | custom_components/cuktech_ble/lib/xiaomi/session.py:465-471 | An inline frame is acknowledged once and delivered with its counter and ciphertext |
| MiotRejection.SkippedBetweenMessages | custom_components/cuktech_ble/lib/xiaomi/session.py:457-464 | Between messages silence and any other frame is skipped |
| MiotRejection.FormsOnTheWire | custom_components/cuktech_ble/lib/xiaomi/session.py:7-15 | Announcement, inline frame and parcel, byte by byte |
| MiotFraming.SendEncrypted | custom_components/cuktech_ble/lib/xiaomi/session.py:430-452 | More than 64 parcels are refused before any write; otherwise a prefix of the announcement and parcels is written, all of it exactly when every write succeeds and both control frames come |
| MiotFraming.OutboundSeenOffline | custom_components/cuktech_ble/lib/xiaomi/session.py:430-452 | Reassembling the sent parcels by the receiving rule gives the same counter and the ciphertext with the counter inserted before each chunk after the first |
| MiotFraming.OutboundRoundTripIff | custom_components/cuktech_ble/lib/xiaomi/session.py:430-452 | The ciphertext comes back unchanged if and only if it fits one parcel |
| MiotFraming.OneWriteIff | custom_components/cuktech_ble/lib/xiaomi/session.py:430-452 | For every legal MTU: the ciphertext comes back unchanged if and only if index, counter and ciphertext fit one ATT write command |
| MiotFraming.LargestPayloadThatFits | custom_components/cuktech_ble/lib/xiaomi/session.py:430-440 | From an MTU of 23 on, n bytes fit one parcel's write if and only if n is at most the payload size; otherwise the payload size is 16 |
| PushHistory.CollectPushes | custom_components/cuktech_ble/lib/xiaomi/session.py:527-535 | Returns the later snapshot without its largest overlap with the earlier one |
| PushHistory.HistoryIsLast | custom_components/cuktech_ble/lib/xiaomi/session.py:157 | The bounded history is the last 16 of all frames |
| PushHistory.PushesAreNew | custom_components/cuktech_ble/lib/xiaomi/session.py:527-535 | Only frames added during the wait are returned, and they are the newest |
| PushHistory.PushesExactIff | custom_components/cuktech_ble/lib/xiaomi/session.py:527-535 | The newest 16 added frames are returned if and only if the frames do not repeat: no stretch in front of the wait, longer than what is left of the old frames, occurs again at the beginning of the last 16 |
| PushHistory.PushesExactWhenDistinct | custom_components/cuktech_ble/lib/xiaomi/session.py:527-535 | For pairwise distinct frames exactly the newest min(n, 16) of the n added frames are returned |
| PushHistory.PushesExactWithoutOverflow | custom_components/cuktech_ble/lib/xiaomi/session.py:527-535 | While the history does not overflow exactly the added frames are returned, even with repeats |
| PushHistory.RepeatedFramesAreMissed | custom_components/cuktech_ble/lib/xiaomi/session.py:531-534 | Any number of frames equal to the 16 before them is not seen at all |
| Channels.ChannelQueue.OnNotify | custom_components/cuktech_ble/lib/xiaomi/auth.py:77-87 | The handler appends, dropping and counting the oldest frame when full |
| Channels.QueueConserves | custom_components/cuktech_ble/lib/xiaomi/auth.py:67-87 | Over any use: notified frames are taken, waiting or counted as dropped; the newest wait in order, within the bound; without drops nothing is lost or reordered |
| Channels.UnreadQueueHoldsTheNewest | custom_components/cuktech_ble/lib/xiaomi/auth.py:67-87 | Unread, a queue of size m holds exactly the last m of n frames and has counted the others |
| Channels.RecvUntil | custom_components/cuktech_ble/lib/xiaomi/auth.py:185-195 | The loop computes the wait for a control frame |
| Channels.AwaitIff | custom_components/cuktech_ble/lib/xiaomi/auth.py:170-195 | The wait succeeds if and only if the expected frame comes before any timeout, overflow or error frame |
| AuthParcels.FramesFitIff | custom_components/cuktech_ble/lib/xiaomi/auth.py:233-244 | For a known MTU every parcel frame of every payload fits MTU - 3 bytes if and only if the MTU is at least 23 |
| AuthParcels.LargestThatFits | custom_components/cuktech_ble/lib/xiaomi/auth.py:233-244 | From an MTU of 23 on, n bytes fit one frame if and only if n is at most the chunk size; otherwise the chunk size is 18 |
| AuthParcels.ParcelIsErrorIff | custom_components/cuktech_ble/lib/xiaomi/auth.py:182-183 | A parcel equals an auth error frame only with an index from 224 to 227, so no parcel of a legal message does |
| AuthParcels.ReceiveParcel | custom_components/cuktech_ble/lib/xiaomi/auth.py:246-273 | The method computes collection, replies and errors as specified |
| AuthParcels.ParcelRoundTrip | custom_components/cuktech_ble/lib/xiaomi/auth.py:201-273 | Chunk, number, permute and collect returns the data, with both replies written, for every payload of at most 64 parcels |
| AuthParcels.AcceptedIffEachIndexOnce | custom_components/cuktech_ble/lib/xiaomi/auth.py:258-273 | A message is accepted if and only if the next N frames carry each index 1..N once; its data are theirs in index order |
| Parcels.ChunkIsMinimalSplit | custom_components/cuktech_ble/lib/xiaomi/auth.py:441-447 | The chunks hold the data, and no split into parts of that size is shorter: the announced count is the minimum |
| Parcels.JoinComplete | custom_components/cuktech_ble/lib/xiaomi/auth.py:255-273 | N collected distinct indices out of 1..N leave none missing and join to the message |
| LoginExchange.HostPlays | custom_components/cuktech_ble/lib/xiaomi/auth.py:391-438 | The host follows the exchange packet by packet and ends with the keys derived from the token and both randoms |
| LoginExchange.PeerPlays | tests/test_xiaomi_mi.py:86-118 | The device, with inline or parcelled variants at any chunk size, follows the same exchange to the same keys |
| LoginComposition.EveryScheduleLogsIn | custom_components/cuktech_ble/lib/xiaomi/auth.py:365-438 | For every schedule of the two parties' steps: no frame is dropped, some party can move until the login is done, the number of effective steps is bounded by the exchange, and exactly at that bound both hold the same keys |
| LoginComposition.MoveAdvances | custom_components/cuktech_ble/lib/xiaomi/auth.py:170-199 | Each step moves one party on by one item of the exchange, or does nothing exactly when that party must wait |
| LoginSafety.AnswersOnlyVerifiedDevice | custom_components/cuktech_ble/lib/xiaomi/auth.py:404-438 | Over every run on arbitrary frames: the host announces its own HMAC, or returns keys, only if a device random and the HMAC that belongs to it were received, each under its code, inline or in the gapless parcels, each index once, behind an announcement of that code and count |
| LoginSafety.WrongProofStops | custom_components/cuktech_ble/lib/xiaomi/auth.py:404-416 | A disagreeing device HMAC, inline or completed by its last parcel, stops the login after the acknowledgement; nothing more is written whatever arrives |
| LoginSafety.DeviceErrorStops | custom_components/cuktech_ble/lib/xiaomi/auth.py:182-183 | An error frame e0 to e3 of the device ends the login wherever it stands; nothing more is written whatever arrives |
| LoginSafety.WrongMessageStops | custom_components/cuktech_ble/lib/xiaomi/auth.py:365-389 | Where the device's random or HMAC is due, a frame that neither hands it over under its code nor announces 1 to 64 parcels under it ends the login; nothing more is written |
| LoginSafety.WrongRandomStops | custom_components/cuktech_ble/lib/xiaomi/auth.py:404-408 | A random handed over inline is taken if it has 16 bytes; otherwise the login is over for good |
| LoginSafety.ConfirmationDecides | custom_components/cuktech_ble/lib/xiaomi/auth.py:423-438 | Confirmation 21 returns the keys, 23 refuses the token, anything else that is no error frame is not understood; nothing more is written |
| LoginSafety.BadTokenWritesNothing | custom_components/cuktech_ble/lib/xiaomi/auth.py:391-393 | A token that does not have 12 bytes stops the login before anything is written |
| LoginModel.FewestIsMinimal | custom_components/cuktech_ble/lib/xiaomi/auth.py:204-208 | The count the device insists on is the chunk count, and no split of the data into pieces of that size has fewer |
| LoginModel.FewestFrames | custom_components/cuktech_ble/lib/xiaomi/auth.py:201-244 | For every known legal MTU: what the host uploads goes out complete in frames of at most MTU - 3 bytes, and no other way to cut it into such frames has fewer |
| LoginModel.FramesOfLogin | custom_components/cuktech_ble/lib/xiaomi/auth.py:201-244 | The random goes out in one frame; the HMAC in one from an MTU of 37 on, else in two |
| LoginObject.MiAuthClient.Login | custom_components/cuktech_ble/lib/xiaomi/auth.py:391-438 | The method's result, writes and reads are those of the host's machine, for every content of the channels and every write failure |
| LoginObject.MiAuthClient.ProveBoth | custom_components/cuktech_ble/lib/xiaomi/auth.py:408-438 | The part of the login behind the device's random, as the machine does it |
| LoginObject.MiAuthClient.AwaitConfirmation | custom_components/cuktech_ble/lib/xiaomi/auth.py:423-438 | The confirmation is read on the other channel and decides the result |
| LoginObject.MiAuthClient.SendParcel | custom_components/cuktech_ble/lib/xiaomi/auth.py:201-231 | Announcement, wait, parcels, wait, or the error that cut it short, as the machine does |
| LoginObject.MiAuthClient.RecvVariant | custom_components/cuktech_ble/lib/xiaomi/auth.py:365-389 | Inline or parcelled payload with its acknowledgement, or the error, as the machine does |
| LoginObject.MiAuthClient.RecvParcels | custom_components/cuktech_ble/lib/xiaomi/auth.py:246-273 | Collection on the object's channel with the replies that were written |
| L2cap.IterAttFrames | tools/decrypt_btsnoop_miot.py:162-218 | The loop emits the ATT frames of the specification |
| L2cap.Recombines | tools/decrypt_btsnoop_miot.py:162-246 | For every log interleaving handles and directions, whose senders send ATT values (opcode, attribute handle, value) and PDUs of other channels or opcodes, with at most one open PDU per handle and complete PDUs in between: exactly the completed values come out, with their attribute handles, in completion order |
| L2cap.EveryPduIsTyped | tools/decrypt_btsnoop_miot.py:228-246 | Every PDU is either an ATT value (channel 4, at least three bytes, opcode 12, 1b, 1d or 52) or one of the others, and is parsed as it was sent: the values with handle and value, the others not at all |
| L2cap.HandlesAreIsolated | tools/decrypt_btsnoop_miot.py:178-218 | Whatever the records, the frames of one handle are those of decoding that handle alone |
| L2cap.HeaderParses | tools/decrypt_btsnoop_miot.py:131-138 | An ACL packet is parsed back to its handle, boundary flag and data |
| Duplex.DecodesExactlyIff | tools/decrypt_btsnoop_miot.py:172-218 | For every log of two directions on many handles in which each direction finishes what it starts and everything sent is a typed ATT value: exactly the values sent come out, in completion order, if and only if no fragmented PDU starts on a handle on which the other direction has one open |
| Duplex.WriteComesOutAsNotification | tools/decrypt_btsnoop_miot.py:172-218 | A whole log decoded from the start: a write and a notification sent in turn are both lost, and a notification comes out that was never sent |
| LoginEpochs.IterLoginSessions | tools/decrypt_btsnoop_miot.py:316-364 | The loop yields every epoch before the first that breaks a cap and fails exactly when one does; non-positive limits fail at once |
| LoginEpochs.EpochsAreTheLatestConnections | tools/decrypt_btsnoop_miot.py:329-364 | The epochs are, in order and without gaps, exactly the frames on the ACL handle of the most recent login start |
| LoginEpochs.EveryEpochIsOneLogin | tools/decrypt_btsnoop_miot.py:330-346 | Each epoch begins with its login start, holds no other, and stays on one handle |
| LoginEpochs.StartIff | tools/decrypt_btsnoop_miot.py:316-341 | A frame starts an epoch if and only if it is a write on the login channel that begins with the announcement the login client writes for its random, whatever the count |
| LoginEpochs.FittingIsExact | tools/decrypt_btsnoop_miot.py:342-361 | The epochs before the reported one fit both caps, and that one does not |
| LoginEpochs.FitsIff | tools/decrypt_btsnoop_miot.py:342-361 | An epoch fits if and only if neither its number of frames nor the bytes of all its values together exceed the caps; both may be reached |
| MiotExtract.ExtractMiotFrames | tools/decrypt_btsnoop_miot.py:367-424 | The loop computes the specified extraction |
| MiotExtract.CollectMiotPart | tools/decrypt_btsnoop_miot.py:427-439 | One parcel is entered, ignored or gives the counter, as specified |
| MiotExtract.FindsMessages | tools/decrypt_btsnoop_miot.py:367-455 | For any traffic with at most one parcelled message open at a time: exactly the completed messages and the inline frames come out; control frames, repeats and other channels change nothing |
| MiotExtract.FlushesWhenComplete | tools/decrypt_btsnoop_miot.py:442-455 | A slot is flushed if and only if every announced parcel was collected, and then with the message |
| RowDecoder.DecodePropertyValues | tools/decrypt_btsnoop_miot.py:510-551 | The loop computes the specified rows |
| RowDecoder.DecodeGetRequest | tools/decrypt_btsnoop_miot.py:496-507 | The loop computes the specified rows |
| RowDecoder.DecodeSetResponse | tools/decrypt_btsnoop_miot.py:554-568 | The loop computes the specified rows |
| RowDecoder.ResponseRowsAgreeIff | tools/decrypt_btsnoop_miot.py:510-584 | On every response the live parser accepts, the offline rows show the same entries if and only if no entry has type 2 |
| RowDecoder.NotificationRowsAgreeIff | tools/decrypt_btsnoop_miot.py:510-584 | The same for events |
| RowDecoder.SetRequestRow | tools/decrypt_btsnoop_miot.py:484-485 | An encoded set request shows as one row with what was asked for |
| RowDecoder.GetRequestRoundTrip | custom_components/cuktech_ble/lib/xiaomi/properties.py:47-52 | An encoded get request has flag 02 and the count, shows exactly the requested properties, in order, and holds nothing else |
| RowDecoder.TupleBytesOkIff | custom_components/cuktech_ble/lib/xiaomi/properties.py:50-51 | A get request is encoded if and only if every number fits its field |
| RowDecoder.SetRowsAgree | tools/decrypt_btsnoop_miot.py:554-568 | The offline rows of a set response are the results the live parser accepts |
| Properties.ParsePropertyEntries | custom_components/cuktech_ble/lib/xiaomi/properties.py:83-125 | The cursor loop computes the specified entries |
| Properties.ResponseAcceptedIff | custom_components/cuktech_ble/lib/xiaomi/properties.py:55-63 | A response parses to a list if and only if its header is right, the list has the header's count, and the body starts with encodings of the list |
| Properties.NotificationAcceptedIff | custom_components/cuktech_ble/lib/xiaomi/properties.py:66-80 | The same for events, with their two headers |
| Properties.EncodesIff | custom_components/cuktech_ble/lib/xiaomi/properties.py:88-125 | What encodes an entry, byte by byte: property, status in a response only, type, marker, and one, two or four value bytes with the low byte first, a flag for type 1 under marker 0 |
| Properties.ResponseRoundTrip | custom_components/cuktech_ble/lib/xiaomi/properties.py:55-125 | Parsing a serialised list of up to 255 entries returns it |
| Properties.NotificationRoundTrip | custom_components/cuktech_ble/lib/xiaomi/properties.py:66-125 | The same for events |
| Properties.EventEntriesHaveNoStatus | custom_components/cuktech_ble/lib/xiaomi/properties.py:103-106 | Entries of an event have status 0 |
| Properties.EncodeGetProperties | custom_components/cuktech_ble/lib/xiaomi/properties.py:47-52 | The loop computes the specified request |
| Properties.SetRequestRoundTrip | custom_components/cuktech_ble/lib/xiaomi/properties.py:152-164 | An encoded set request has flag 00 and count 1, parses to what was asked for (a byte-sized level mod 256), holds nothing else, and is never taken for an event |
| Properties.ParseSetResponse | custom_components/cuktech_ble/lib/xiaomi/properties.py:167-184 | The loop computes the specified results |
| Properties.SetAcceptedIff | custom_components/cuktech_ble/lib/xiaomi/properties.py:187-217 | A write counts as done for exactly one byte string per sequence: one result, this property, status 0 |
| Properties.OverlayMerge | custom_components/cuktech_ble/lib/xiaomi/properties.py:138 | Merging a table built from nothing is applying its entries one by one |

## Left out

- Bluetooth, GATT and Home Assistant calls: they are steps that succeed, fail or are cancelled.
- AES-CCM, HKDF, HMAC and ECDH internals: functions given from outside.
- `register` and `greet`: `register` repeats the parcel machinery with other codes.
- `subscribe` and `unsubscribe` of the auth client: flags around library calls.
- `_build_snapshot`, port decoding, sensors, switches, diagnostics and config flow: they read the snapshot only.
- Xiaomi cloud client, QR login, advertisement and firmware parsing, live command-line tools, CSV output and file
  reading: independent of the protocols above.
- `extract_login_randoms`: a third collector of the same parcels.
- Wall-clock time: timeouts and leases are steps that may happen at any moment.
- The waits of `async_shutdown` for the cancelled timer and the clean-up task after the lock is released: they
  change no field.
- The value of an entry in a poll is not checked against what was requested, as in the original.
- LoginComposition.EveryScheduleLogsIn: does not contain timeouts, because the schedule is arbitrary; a timeout
  is a stopped host in `LoginObject.MiAuthClient.Login`.
- LoginExchange.PeerPlays: does not model a device that skips the wait for the acknowledgement of an inline
  message; the source has no such device.
- L2cap.Recombines: its sender has one open PDU per handle, and a new incomplete first fragment is stated to abandon
  it; senders with one open PDU per direction are the subject of `Duplex.DecodesExactlyIff`.
- MiotExtract.FindsMessages: does not keep a message that is interrupted by another announcement, because the
  decoder has one slot; the interrupted one is stated to be lost.
