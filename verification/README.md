# GatoMQTT and smartbox-config, modelled and proved in Dafny

This project models the two libraries of the repository and one protocol of its firmware example, and proves what they
keep over whole runs. `dafny verify dfyconfig.toml` checks everything.

**The broker (crates/GatoMQTT).** A fixed set of session slots shares one reference-counted, generation-tagged store of
publishes. Connection loops interleave over it under one mutex and per-slot latched signals.

- `Sessions`, `PublishStore`, `FanOut`, `FanOutSpec`, `RegistryOps`, `Connect`, `Publish`: the registry and its operations
  as functions on values, with reference conservation and the exact effect of a fan-out on every session.
- `RegistryClass`: the same registry as a class over arrays, its loops written as the code writes them and proved against
  those functions.
- `Broker`, `BrokerSafety`, `BrokerRuns`, `BrokerTakeover`, `BrokerExamples`: the connection loops as a state machine, one
  step from one await to the next, the invariants of every interleaving, exactly when a takeover breaks them, and runs that
  lead to the states where it does.
- `BrokerOutbox`, `BrokerTables`, `BrokerEnds`: outboxes as queues, subscription and retained tables as bounded maps, and when
  and how a loop gives its session up, in every run.
- `Deliveries`, `BrokerDeliveries`, `ForeignIds`: the life of a QoS 1 delivery, from packet id to retries to PUBACK, in every
  run, and the packet ids issued outside a session's counter.
- `Topics`, `Subscribe`, `Retained`, `BoundedMap`, `RateLimit`, `Timers`, `Frame`, `Credentials`: filters, subscription lists,
  retained messages, the token bucket, deadlines, framing, credential comparison.

**The house configuration (crates/smartbox-config).**

- `ConfigSchema`, `Validation`, `WellFormedness`, `FaultReports`, `Compiler`, `Partition`: validation decides a declarative
  predicate and reports only true defects, and compiling for all boards partitions the house into closed parts.
- `Crc`, `Envelope`: the stored blob format, its exactness and what damage it detects.
- `Slots`, `SlotRuns`, `ConfigManagement`: the A/B update over two slots with failing writes, as functions, as runs and as
  objects.

**The firmware example.** `Handoff`: how the accept task hands sockets to TLS workers.

## Conventions

- Text is a `string` with one character per UTF-8 byte. Capacities of the source's vectors are constants or parameters.
- Clocks are tick counts passed in; `hz` is the tick rate. Store failures, write failures and the answers of the inbound
  handler are parameters, so every result holds for all of them.
- A 32-bit CRC register is 32 booleans, least significant first. Packet ids, generations, refcounts and retry counters
  wrap or saturate where the source's integers do.
- Interleavings are events on a system value. A task's step is one region between two awaits, which is what a cooperative
  executor runs without interruption.

## Where the code decides otherwise

- A CONNECT for a client whose loop still runs reuses its slot, and the old loop then acts on the new session. A CONNECT
  keeps ownership exactly when it is not such a takeover (`TakeoverIsExactlyTheHazard`). It keeps the wake-up guarantee
  exactly when it does not resume a session with a non-empty outbox under a loop that waits (`WakeupLostExactly`).
- Replayed retained messages and wills carry packet ids of their own, from 1. Their PUBACK can remove a delivery of the
  session's counter (`ReplayAckDropsDelivery`); it does exactly when an entry in flight carries the same id
  (`PubackHarmlessExactly`, `ReplaySafeExactly`).
- With `max_retries` at 255 the retry counter saturates and no session ends for an unacknowledged publish
  (`SaturatedRetriesNeverEnd`, `NeverGivenUpAt255`); below 255 it ends exactly when a due delivery has used up its retries.
  So the bound on retransmissions holds exactly below 255 (`LimitedExactly`). A failed write raises the counter without
  moving the time of the last transmission.
- `+` does not match an empty level, and a topic starting with `$` is matched only by the identical filter. Both are
  stricter than sections 4.7.1.3 and 4.7.2 of MQTT 3.1.1; the model follows the code.
- Retained messages for several new filters in one SUBSCRIBE are cut off at the store capacity (`ReplayIsCut`).
- A frame that does not encode stops a fan-out midway; `RoutePrefix` and `FanOutShared` say what was delivered by then.
- The envelope's checksum covers the payload only. Damage to a version field is not refused (`OneByteDamage`).
- A payload of 2^32 bytes or more loses the high bits of its length and does not boot (`UpdateBoots`).
- Nothing checks that a prepared slot is not the active one or that a token is fresh. `PrepareKeepsBootExactly` and
  `TokenStaysGoodExactly` give the exact conditions under which the update is safe.

## Model

| member | source | states |
|---|---|---|
| PublishStore.StoreRefBalanced | crates/GatoMQTT/src/session/registry.rs:141-172 | storing a publish adds exactly one reference to the balance of counts and holders, and the new handle is live and new even when the generation wraps |
| PublishStore.AcquireBalanced | crates/GatoMQTT/src/session/registry.rs:174-186 | acquiring adds exactly one reference to a live handle and changes no other publish |
| PublishStore.ReleaseBalanced | crates/GatoMQTT/src/session/registry.rs:188-196 | releasing removes one reference, frees the slot only with the last one, and keeps every other held publish |
| PublishStore.ReleaseAllBalanced | crates/GatoMQTT/src/session/registry.rs:89-95 | releasing the handles of a removed session takes exactly those references |
| RegistryOps.RemoveConserves | crates/GatoMQTT/src/session/registry.rs:89-95 | removing a session keeps every refcount equal to the number of remaining holders |
| RegistryOps.AcknowledgeConserves | crates/GatoMQTT/src/handler/publish.rs:215-225 | a PUBACK, known or unknown, keeps references conserved |
| RegistryOps.InflightIsLive | crates/GatoMQTT/src/session/registry.rs:198-206 | in a conserved registry every inflight handle of every session finds its stored publish |
| RegistryOps.RetryFindsPublish | crates/GatoMQTT/src/handler/publish.rs:419-503 | with live handles a retry pass never reports a missing stored publish |
| RegistryOps.RetryConserves | crates/GatoMQTT/src/handler/publish.rs:419-503 | a retry pass, complete or cut short, keeps references conserved |
| FanOut.MatchQosIsBest | crates/GatoMQTT/src/router/dispatcher.rs:8-40 | the QoS found for a topic is the greatest over the matching filters, and none when no filter matches |
| FanOut.BestMatchUnique | crates/GatoMQTT/src/router/dispatcher.rs:8-40 | that description leaves only one answer |
| FanOut.SubscribersExact | crates/GatoMQTT/src/router/dispatcher.rs:8-69 | the target list names every matching session but the skipped one, each once, with its best QoS, and nobody else |
| FanOut.ShareBalanced | crates/GatoMQTT/src/handler/publish.rs:388-409 | sharing the stored copy of one publish among receivers keeps counts and holders balanced |
| FanOut.DeliverOneConserves | crates/GatoMQTT/src/handler/publish.rs:120-192 | one delivery of a fan-out keeps references conserved, whether it queues, drops or tracks |
| FanOut.RouteConserves | crates/GatoMQTT/src/handler/publish.rs:120-192 | so does any prefix of the fan-out, also one stopped by an encoding error |
| FanOutSpec.RoutePrefix | crates/GatoMQTT/src/handler/publish.rs:120-192 | after n targets exactly the first n sessions have been served, all other slots and signals are untouched, and the shared copy has one reference per tracked delivery |
| FanOutSpec.FanOutPerSession | crates/GatoMQTT/src/handler/publish.rs:114-192 | per session: not a recipient means unchanged; a recipient is served exactly once and independently of the others |
| FanOutSpec.FanOutShared | crates/GatoMQTT/src/handler/publish.rs:114-192 | the fan-out succeeds exactly when every frame encodes, and the store afterwards holds one copy counted once per tracked delivery |
| FanOutSpec.DeliveryContract | crates/GatoMQTT/src/handler/publish.rs:114-192 | a successful fan-out gives each other session one packet at min(incoming, best match), or one counted drop when its outbox is full, and an inflight entry exactly when a QoS 1 packet was queued and both lists had room |
| RegistryClass.SessionRegistry.constructor | crates/GatoMQTT/src/session/registry.rs:60-67 | a new registry is empty, conserved and has no duplicate clients |
| RegistryClass.SessionRegistry.FindByClientId | crates/GatoMQTT/src/session/registry.rs:97-101 | the first slot holding the client, or none |
| RegistryClass.SessionRegistry.StorePublishRef | crates/GatoMQTT/src/session/registry.rs:141-172 | the array update refines the stored-publish function |
| RegistryClass.SessionRegistry.AcquireStoredPublish | crates/GatoMQTT/src/session/registry.rs:174-186 | succeeds exactly when the handle is live and unsaturated, adding one reference |
| RegistryClass.SessionRegistry.ReleaseStoredPublish | crates/GatoMQTT/src/session/registry.rs:188-196 | takes one reference and frees the slot with the last; a stale handle changes nothing |
| RegistryClass.SessionRegistry.Remove | crates/GatoMQTT/src/session/registry.rs:89-95 | empties the slot and releases every inflight handle of the session |
| RegistryClass.SessionRegistry.HandlePuback | crates/GatoMQTT/src/handler/publish.rs:215-225 | removes the first entry with the id and releases its handle |
| RegistryClass.SessionRegistry.FindSubscribers | crates/GatoMQTT/src/router/dispatcher.rs:8-69 | the scan computes the target list of the model |
| RegistryClass.SessionRegistry.AcquireShared | crates/GatoMQTT/src/handler/publish.rs:388-409 | the first receiver stores the publish, later ones acquire it |
| RegistryClass.SessionRegistry.DeliverTo | crates/GatoMQTT/src/handler/publish.rs:120-192 | one loop iteration on the arrays is one delivery of the model |
| RegistryClass.SessionRegistry.FanOutLoop | crates/GatoMQTT/src/handler/publish.rs:114-192 | the whole loop on the arrays is the fan-out of the model |
| RegistryClass.SessionRegistry.HandlePublish | crates/GatoMQTT/src/handler/publish.rs:76-213 | rate limit, inbound handler, retained store and fan-out in the code's order, with its errors |
| RegistryClass.SessionRegistry.ProcessOutbound | crates/GatoMQTT/src/handler/publish.rs:265-355 | an outbound publish updates the retained store and fans out to every match |
| RegistryClass.SessionRegistry.ProcessRetries | crates/GatoMQTT/src/handler/publish.rs:419-503 | the retry loop computes the retry pass of the model |
| RegistryClass.SessionRegistry.RetryEntry | crates/GatoMQTT/src/handler/publish.rs:435-500 | one turn of the loop, branch by branch, writing the entry back in place |
| RegistryClass.SessionRegistry.RecordPublishedLwt | crates/GatoMQTT/src/session/registry.rs:127-131 | queues a displaced will unless the queue is full |
| RegistryClass.SessionRegistry.PrepareConnect | crates/GatoMQTT/src/handler/connect.rs:97-186 | refusal, takeover, resume and the failure paths on the arrays are those of the model |
| RegistryClass.BestQos | crates/GatoMQTT/src/router/dispatcher.rs:8-40 | the accumulating loop finds the greatest matching QoS |
| Connect.ConnectConserves | crates/GatoMQTT/src/handler/connect.rs:97-186 | every outcome of CONNECT keeps references conserved |
| Connect.ConnectHasShape | crates/GatoMQTT/src/handler/connect.rs:124-186 | a CONNECT, successful or not, changes the slots in one of a few stated ways, and an accepted slot holds the client |
| Connect.ConnectKeepsClientsDistinct | crates/GatoMQTT/src/handler/connect.rs:124-186 | no CONNECT ever puts one client into two slots |
| Credentials.CtEq | crates/GatoMQTT/src/handler/connect.rs:251-262 | the accumulated difference is zero exactly for equal byte strings, for any width of lengths |
| Publish.HandlePublishConserves | crates/GatoMQTT/src/handler/publish.rs:76-213 | an inbound publish keeps references conserved on every path |
| Publish.HandlePublishGrows | crates/GatoMQTT/src/handler/publish.rs:76-213 | it only appends to outboxes, and sets the signal of every outbox it appends to |
| Publish.OutboundConserves | crates/GatoMQTT/src/handler/publish.rs:265-355 | an outbound publish keeps references conserved |
| Publish.OutboundGrows | crates/GatoMQTT/src/handler/publish.rs:265-355 | it only appends to outboxes, and sets the signal of every outbox it appends to |
| BrokerSafety.ActEffect | crates/GatoMQTT/src/handler/connection.rs:164-476 | a loop's step leaves other sessions in place, only appends to their outboxes, with a signal, and keeps its own loop alert |
| BrokerSafety.ActConserves | crates/GatoMQTT/src/handler/connection.rs:164-476 | every step of a connection loop keeps references conserved |
| BrokerRuns.StepSafe | crates/GatoMQTT/src/handler/connection.rs:115-476 | every step of every interleaving keeps references conserved and clients distinct |
| BrokerRuns.StepOwned | crates/GatoMQTT/src/handler/connection.rs:115-476 | without a takeover of a running client, each running loop keeps its own session on its own slot and no loop sleeps through a packet |
| BrokerRuns.TakeoverIsExactlyTheHazard | crates/GatoMQTT/src/handler/connect.rs:153-175 | a CONNECT keeps ownership if and only if no running loop serves that client or the packet is refused first |
| BrokerRuns.TakeoverBreaksOwnership | crates/GatoMQTT/src/handler/connect.rs:153-175 | every other CONNECT leaves the old loop on a session it did not obtain |
| BrokerTakeover.WakeupLostExactly | crates/GatoMQTT/src/handler/connection.rs:122-134 | a CONNECT keeps the wake-up guarantee if and only if it does not resume a session with a non-empty outbox whose loop is about to wait or waits |
| BrokerTakeover.ResumeLosesWakeup | crates/GatoMQTT/src/handler/connection.rs:122-134 | a reachable state and a CONNECT after which a waiting loop has a packet and no signal |
| BrokerTakeover.BusyClientIsReachable | crates/GatoMQTT/src/handler/connection.rs:115-476 | a run that leads to that state |
| BrokerExamples.ListeningIsReachable | crates/GatoMQTT/src/handler/connection.rs:115-476 | a run in which a client connects, subscribes and waits |
| BrokerRuns.CleanupRemovesItsOwnSession | crates/GatoMQTT/src/handler/connection.rs:469-473 | under ownership, cleanup removes exactly the session its loop obtained and nothing else |
| BrokerRuns.RunIsSafe | crates/GatoMQTT/src/handler/connection.rs:115-476 | in every reachable state references are conserved and client ids are pairwise distinct |
| BrokerRuns.PoliteRunIsOwned | crates/GatoMQTT/src/handler/connection.rs:115-218 | ownership and the absence of lost wake-ups over whole runs without such a takeover, with orphan sessions, resumes and signal resets included |
| BrokerRuns.RunNeverLosesAPublish | crates/GatoMQTT/src/handler/publish.rs:419-503 | in every reachable state no retry meets a missing publish, and each occupied store slot is counted exactly by its holders, at least once |
| BrokerOutbox.StepOutbox | crates/GatoMQTT/src/handler/connection.rs:164-476 | a step of the broker either takes the first packet of an outbox for the loop that writes it, or only appends |
| BrokerOutbox.OutboxIsAQueue | crates/GatoMQTT/src/handler/connection.rs:373-407 | over any run, for as long as a session lasts, what was in its outbox and what was added is what was taken to be written and what is left, in order |
| BrokerOutbox.OwnLoopWrites | crates/GatoMQTT/src/handler/connection.rs:373-407 | in runs without a takeover of a running client only the session's own loop takes its packets |
| BrokerEnds.RunIdsValid | crates/GatoMQTT/src/session/state.rs:192-198 | in every run every packet id in flight is between 1 and 65535, so the invalid-id error is unreachable |
| BrokerEnds.CheckDecidesInRuns | crates/GatoMQTT/src/handler/connection.rs:172-218 | in every reachable state, while writes succeed, a check ends the loop if and only if a delivery is out of retries or the keepalive has expired |
| BrokerEnds.NeverGivenUpAt255 | crates/GatoMQTT/src/handler/publish.rs:440-458 | with max_retries at 255 no delivery is ever out of retries |
| BrokerEnds.SilentClientIsClosed | crates/GatoMQTT/src/handler/connection.rs:172-218 | in a run, while nothing is heard of a client, the first check of its loop after the keepalive deadline comes one tick and the timer's lateness past it and starts to close the loop; no earlier check finds it expired |
| BrokerEnds.PoliteSilence | crates/GatoMQTT/src/handler/connection.rs:115-476 | in runs without takeovers nothing is heard of a client as soon as its loop runs on and handles no packet |
| BrokerEnds.StepKeepsActivity | crates/GatoMQTT/src/session/state.rs:133-154 | no other step of the broker moves a session's keepalive or last activity |
| BrokerEnds.GivingUpEndsSession | crates/GatoMQTT/src/handler/connection.rs:172-476 | in every run a loop that gives its session up starts to close, and within its next three actions removes the session |
| BrokerTables.RunTables | crates/GatoMQTT/src/handler/subscribe.rs:81-125 | in every run each session's subscription list is a map of at most the capacity from valid filters to QoS, and the retained store a bounded map of non-empty payloads |
| Deliveries.PidsDistinct | crates/GatoMQTT/src/session/state.rs:192-198 | packet ids are never 0 and any 65535 consecutive ones are pairwise distinct |
| Deliveries.PidsRepeat | crates/GatoMQTT/src/session/state.rs:192-198 | the window cannot be longer: the ids repeat after 65535 allocations |
| Deliveries.RetryExact | crates/GatoMQTT/src/handler/publish.rs:419-503 | a surviving retry pass retransmits exactly the due entries, in order, and raises exactly their counters |
| Deliveries.PassExact | crates/GatoMQTT/src/handler/publish.rs:419-503 | what any pass, also one that stops midway, makes of each entry: a completed write moves its time, every attempt raises its counter, and only attempts within max_retries are written |
| Deliveries.PassSends | crates/GatoMQTT/src/handler/publish.rs:419-503 | what any pass puts on the wire: exactly the due entries before the one it stops at, in order |
| Deliveries.RetryFailsExactly | crates/GatoMQTT/src/handler/publish.rs:419-503 | while writes succeed, a pass over any list of valid entries fails if and only if a due entry's next retry, saturated at 255, exceeds max_retries, and for no other reason |
| Deliveries.LifeIsGood | crates/GatoMQTT/src/handler/publish.rs:419-503 | over any life of a session, failed retry passes included and for every max_retries, an entry keeps its id and content, its transmissions are at least a retry interval apart, and its counter, saturated at 255, counts exactly the retransmissions written, failed or refused |
| Deliveries.LifeIsLimited | crates/GatoMQTT/src/handler/publish.rs:419-503 | with max_retries below 255, over any life and whatever its passes meet, a delivery is written or its write tried at most once plus max_retries times |
| Deliveries.LimitedExactly | crates/GatoMQTT/src/handler/publish.rs:440-458 | every life keeps that bound if and only if max_retries is below 255 |
| Deliveries.EndlessLife | crates/GatoMQTT/src/handler/publish.rs:440-458 | at 255 there is a life that sends one delivery any given number of times |
| Deliveries.UnfailedLife | crates/GatoMQTT/src/handler/publish.rs:419-503 | while every pass goes through, the counter is the number of retransmissions and at most max_retries |
| Deliveries.ResendsRepeatTheFirst | crates/GatoMQTT/src/handler/publish.rs:419-503 | what any retry pass writes, complete or not, carries the packet id and the topic, payload and retain flag recorded when the delivery was admitted |
| Deliveries.ExhaustedEntryEndsSession | crates/GatoMQTT/src/handler/publish.rs:419-503 | below 255 the exhausted entries are exactly the due ones whose transmissions, failed writes and refusals exceed max_retries, and one of them fails the pass whatever the transport does |
| Deliveries.SaturatedRetriesNeverEnd | crates/GatoMQTT/src/handler/publish.rs:440-458 | with max_retries at 255 no list of valid entries is ever given up for its retries |
| Deliveries.AckRemovesItsDelivery | crates/GatoMQTT/src/session/state.rs:114-124 | while entries leave within 65535 allocations, ids in flight are distinct and a PUBACK of a tracked delivery's own id removes exactly that delivery |
| Deliveries.UntrackedAckRemovesNothing | crates/GatoMQTT/src/session/state.rs:114-124 | a PUBACK of a recent id of the session's counter that is not tracked removes nothing |
| Deliveries.AckHarmlessExactly | crates/GatoMQTT/src/session/state.rs:114-124 | a PUBACK, whoever issued its id, leaves the inflight list unchanged if and only if no entry carries that id |
| Deliveries.EveryEntryWasAdmitted | crates/GatoMQTT/src/handler/publish.rs:120-192 | every delivery in flight was admitted by a step of the session's life, and its history begins with that step's id, time and content |
| ForeignIds.PubackHarmlessExactly | crates/GatoMQTT/src/handler/publish.rs:215-225 | in the broker a PUBACK leaves a session's deliveries alone if and only if no entry in flight carries its id |
| ForeignIds.ReplayIdsAre | crates/GatoMQTT/src/handler/subscribe.rs:146-159 | the ids of a retained replay are exactly 1 up to the number of its messages above QoS 0 |
| ForeignIds.ReplaySafeExactly | crates/GatoMQTT/src/handler/subscribe.rs:146-159 | acknowledging every packet of a replay, one after the other, leaves a session's deliveries unchanged if and only if no delivery in flight has one of those ids |
| ForeignIds.AcksHarmlessExactly | crates/GatoMQTT/src/handler/publish.rs:215-225 | any sequence of PUBACKs leaves the deliveries unchanged if and only if no entry carries one of the ids; otherwise an entry is lost |
| ForeignIds.SubscribeReplays | crates/GatoMQTT/src/handler/subscribe.rs:103-159 | what a SUBSCRIBE writes after its SUBACK: the matches of the new filters, cut at the capacity, numbered from 1 |
| ForeignIds.WillIdIsOne | crates/GatoMQTT/src/handler/connection.rs:493-511 | a queued will above QoS 0 carries id 1, whatever its receiver has in flight |
| ForeignIds.ReplayAckDropsDelivery | crates/GatoMQTT/src/handler/subscribe.rs:146-159 | a reachable state where acknowledging a replayed message removes the session's own unacknowledged delivery |
| ForeignIds.FirstInFlightIsReachable | crates/GatoMQTT/src/handler/connection.rs:115-476 | a run that leads to that state |
| BrokerDeliveries.StepContent | crates/GatoMQTT/src/handler/connection.rs:115-476 | no step of the broker changes the content of a publish that stays held |
| BrokerDeliveries.SessionStep | crates/GatoMQTT/src/handler/connection.rs:115-476 | every broker step moves each session's inflight list by one delivery step; a tracked delivery comes with its packet queued in that step, a removal with a PUBACK and a retry with a check of the session's own loop |
| BrokerDeliveries.SessionWasOpened | crates/GatoMQTT/src/handler/connect.rs:97-186 | every session of every state of every run was opened by a CONNECT of that run, with nothing in flight, and kept since |
| BrokerDeliveries.DeliveriesInRuns | crates/GatoMQTT/src/handler/connection.rs:115-476 | in every run the deliveries of a session from its opening to its end, through failed retry passes and resumes, are a life, state by state and step by step, each step caused by the run's own event |
| BrokerDeliveries.RunDeliveriesAreGood | crates/GatoMQTT/src/handler/publish.rs:120-192 | for every session of every state of every run: its history is good in each state since its opening and, below 255, within the retry limit; each delivery in flight was started by a step of that run, which queued its first transmission at QoS 1 under the id and with the content its history records |
| BrokerDeliveries.RetriesRepeatQueuedPackets | crates/GatoMQTT/src/handler/publish.rs:419-503 | in every run whatever any retry pass of a session writes, also one that then fails, is a copy of a packet queued earlier for that session: id, topic, payload and retain flag |
| BrokerDeliveries.UnfailedInRuns | crates/GatoMQTT/src/handler/publish.rs:419-503 | in every run, until a retry pass of the session fails, each counter is the number of retransmissions and at most max_retries |
| BrokerDeliveries.AcksInRuns | crates/GatoMQTT/src/handler/publish.rs:215-225 | in every run and for every max_retries, while entries leave within 65535 allocations, the broker's step for a PUBACK of a tracked delivery's id removes exactly that entry, and for a recent untracked id of the counter removes nothing |
| Topics.TopicMatches | crates/GatoMQTT/src/router/subscriptions.rs:5-27 | the level-by-level loop decides the declarative matching relation for every pair of strings |
| Topics.IsValidFilter | crates/GatoMQTT/src/handler/subscribe.rs:257-280 | the scan accepts exactly the filters of the per-level grammar |
| Topics.ValidFilterMatches | crates/GatoMQTT/src/router/subscriptions.rs:5-27 | for a valid filter matching means equal level counts, or a final `#` covering any rest, with each level equal or `+` against a non-empty level |
| Topics.PlainFilterMatchesOnlyItself | crates/GatoMQTT/src/router/subscriptions.rs:5-27 | a filter without wildcards matches only the identical topic |
| Topics.DollarTopicsMatchOnlyThemselves | crates/GatoMQTT/src/router/subscriptions.rs:10-21 | a topic starting with `$` is matched only by the identical filter |
| Retained.RetainedStore.Set | crates/GatoMQTT/src/router/retained.rs:35-67 | replace, delete, insert and each error, on the entry list |
| Retained.SetRefines | crates/GatoMQTT/src/router/retained.rs:35-67 | one call refines a bounded map from topics to non-empty payload and QoS; errors change nothing |
| Retained.RunRefines | crates/GatoMQTT/src/router/retained.rs:35-67 | so does any sequence of calls, with the same results |
| Retained.MatchingExact | crates/GatoMQTT/src/router/retained.rs:73-77 | the matching entries are exactly the stored ones whose topic matches, each as often as stored |
| Subscribe.UpsertSubscription | crates/GatoMQTT/src/handler/subscribe.rs:230-255 | the update, its return code and whether a filter is new |
| Subscribe.PrepareSubscribe | crates/GatoMQTT/src/handler/subscribe.rs:81-125 | the grants, their codes and the retained replay of the new filters |
| Subscribe.ReplayFilter | crates/GatoMQTT/src/handler/subscribe.rs:103-118 | the entries matching one filter are appended until the capacity is reached |
| Subscribe.ApplyUnsubscribe | crates/GatoMQTT/src/handler/subscribe.rs:215-228 | each filter's first subscription is removed, in order |
| Subscribe.UpsertRefines | crates/GatoMQTT/src/handler/subscribe.rs:230-255 | granting refines a bounded map from valid filters to the last QoS granted |
| Subscribe.DropRefines | crates/GatoMQTT/src/handler/subscribe.rs:215-228 | unsubscribing deletes the key from that map |
| Subscribe.SubscriptionsRefine | crates/GatoMQTT/src/handler/subscribe.rs:81-125 | so does any sequence of single requests |
| Subscribe.PacketsRefine | crates/GatoMQTT/src/handler/subscribe.rs:81-125 | a whole SUBSCRIBE or UNSUBSCRIBE packet performs its requests on that map one after the other |
| Subscribe.WritePreparedSubscribe | crates/GatoMQTT/src/handler/subscribe.rs:146-175 | the loop that numbers and writes the replayed messages |
| Subscribe.ReplayIsCut | crates/GatoMQTT/src/handler/subscribe.rs:103-118 | the replay of several filters is the concatenation of their matches, cut at the capacity |
| Subscribe.SingleFilterReplay | crates/GatoMQTT/src/handler/subscribe.rs:103-118 | one new filter gets exactly the matching retained entries, once each, in store order |
| RateLimit.TokenBucket.TryConsume | crates/GatoMQTT/src/session/rate_limit.rs:23-42 | refill, decision and violation count of one call, in range |
| RateLimit.SpendingBound | crates/GatoMQTT/src/session/rate_limit.rs:23-42 | the tokens spent between two refills are covered by what was there and the whole seconds credited |
| RateLimit.WindowBound | crates/GatoMQTT/src/session/rate_limit.rs:23-42 | any window of calls admits at most capacity + rate × (whole seconds + 1), despite saturation and lost fractions |
| RateLimit.ViolationsCountTheStreak | crates/GatoMQTT/src/session/rate_limit.rs:23-42 | violations is the current run of refusals, capped at 255 |
| Timers.NextWakeupAfter | crates/GatoMQTT/src/session/state.rs:163-190 | the loop computes max(1 tick, min of cap, keepalive remainder and earliest retry remainder) |
| Timers.SleepUnique | crates/GatoMQTT/src/session/state.rs:163-190 | that description leaves only one answer |
| Timers.NoDeadlineOverslept | crates/GatoMQTT/src/handler/connection.rs:172-218 | no pending deadline is overslept by more than one tick |
| Timers.SilentSessionExpires | crates/GatoMQTT/src/session/state.rs:137-190 | with checks no later than the computed sleeps and the timer's lateness, the first check after the deadline of a silent session is one tick past it plus that lateness, exactly at deadline + 1 with punctual timers, and finds it expired; no earlier check does |
| Timers.TimerReachesDeadline | crates/GatoMQTT/src/session/state.rs:152-190 | checks brought about by the timer alone advance by at least one tick each, so they pass any deadline |
| Frame.DecodeRemainingLength | crates/GatoMQTT/src/codec/frame.rs:75-93 | the multiplier loop decodes the remaining length of section 2.2.3 of MQTT 3.1.1 |
| Frame.ReadExact | crates/GatoMQTT/src/codec/frame.rs:95-115 | exactly the wanted bytes of the stream, for every chunking, or the right error |
| Frame.ReadPacket | crates/GatoMQTT/src/codec/frame.rs:29-61 | the result is a function of the stream alone, for every chunking; exactly the frame is consumed and copied |
| Frame.LengthRoundTrip | crates/GatoMQTT/src/codec/frame.rs:75-93 | decoding inverts the remaining-length encoding for all values up to 268435455 |
| Frame.FrameRoundTrip | crates/GatoMQTT/src/codec/frame.rs:29-61 | a framed body followed by anything is read back as that frame, or refused as too large with its size |
| Crc.ComputeCrc32 | crates/smartbox-config/src/serialization.rs:131-141 | the branch-free mask loop computes the CRC-32 of section 8 of RFC 1952 by polynomial division |
| Crc.FeedAllInjective | crates/smartbox-config/src/serialization.rs:131-141 | feeding the same bytes keeps different registers different |
| Crc.WindowBack | crates/smartbox-config/src/serialization.rs:131-141 | two registers that meet after two windows of at most four bytes differed before exactly in the bits in which the windows differ |
| Crc.BurstChangesCrc | crates/smartbox-config/src/serialization.rs:131-141 | any change confined to at most four consecutive bytes, in a payload of any length, changes the checksum |
| Envelope.EncodeEnveloped | crates/smartbox-config/src/serialization.rs:46-75 | the buffer's front becomes the sealed blob and its rest is kept, or the error that applies |
| Envelope.RoundTrip | crates/smartbox-config/src/serialization.rs:46-129 | decoding a sealed blob gives back kind, versions and value |
| Envelope.DecodeAcceptsOnlySealed | crates/smartbox-config/src/serialization.rs:77-129 | an accepted input is byte for byte the encoding of what it decodes to |
| Envelope.BurstIsRefused | crates/smartbox-config/src/serialization.rs:113-120 | a payload changed within four consecutive bytes is refused with the checksum error and both checksums |
| Envelope.OneByteDamage | crates/smartbox-config/src/serialization.rs:77-129 | a changed byte anywhere is refused with its field's error, except in the version fields, where the blob decodes with exactly that version changed |
| Validation.ValidateConfig | crates/smartbox-config/src/compiler.rs:87-122 | the checks in order yield the first fault of the configuration |
| Validation.ValidateBoards | crates/smartbox-config/src/compiler.rs:231-274 | first bad or duplicate board id, else the coordinator count |
| Validation.ValidateControllers | crates/smartbox-config/src/compiler.rs:276-304 | first controller on an unknown board |
| Validation.ValidateDevices | crates/smartbox-config/src/compiler.rs:306-351 | first fault of a device: id, duplicate, board, controller of its port |
| Validation.ValidateDependencies | crates/smartbox-config/src/compiler.rs:353-389 | first fault of a dependency: board, unknown device, crossing boards |
| Validation.ValidateRules | crates/smartbox-config/src/compiler.rs:391-438 | first fault of a rule: id, duplicate, references |
| Validation.ValidateRuleBody | crates/smartbox-config/src/compiler.rs:440-483 | first fault of a rule body, step by step |
| Validation.ValidateActions | crates/smartbox-config/src/compiler.rs:485-529 | first fault among a list of actions |
| WellFormedness.ValidationExact | crates/smartbox-config/src/compiler.rs:87-122 | validation succeeds if and only if the declarative well-formedness predicate holds |
| FaultReports.ReportsAreTrue | crates/smartbox-config/src/compiler.rs:87-122 | every error validation reports names a defect the configuration has, with the right ids |
| WellFormedness.CountIsOne | crates/smartbox-config/src/compiler.rs:250-273 | the counter is one exactly when there is one coordinator and no other |
| Compiler.PushKept | crates/smartbox-config/src/compiler.rs:160-202 | pushing the kept items yields the filtered list, or fails exactly when it exceeds the capacity |
| Compiler.CompileConfig | crates/smartbox-config/src/compiler.rs:124-229 | fault, missing board, overflow or the board's output |
| Compiler.CompileSucceeds | crates/smartbox-config/src/compiler.rs:124-229 | success exactly for a well-formed house and a configured board; `CapacityExceeded` is unreachable |
| Partition.CompilationPartitions | crates/smartbox-config/src/compiler.rs:124-229 | every board compiles, and each controller, device, dependency and rule is in the output of exactly one board, in order and unchanged |
| Partition.RulePlacement | crates/smartbox-config/src/compiler.rs:614-622 | a house-level rule is on the unique coordinator and nowhere else, a board-local rule on its board |
| Partition.ArtifactIsClosed | crates/smartbox-config/src/compiler.rs:306-529 | ports name local controllers, dependencies and board-local targets name local devices, and every device a rule mentions has exactly one topology entry, with its true owner |
| Slots.PrepareFrame | crates/smartbox-config/src/pipeline.rs:45-100 | whatever fails, a preparation changes neither the pointer nor another slot |
| Slots.CellSafeExactly | crates/smartbox-config/src/pipeline.rs:180-222 | a stored blob survives a preparation under all failures if and only if it is in another slot or nothing compiles |
| Slots.PrepareKeepsBootExactly | crates/smartbox-config/src/pipeline.rs:45-178 | a preparation leaves every boot result unchanged under all failures if and only if it targets an inactive slot or nothing compiles |
| Slots.UpdateBoots | crates/smartbox-config/src/manager.rs:44-121 | prepare, activate, boot with the prepared versions is ready with exactly the compiled configuration if and only if its payload is below 2^32 bytes |
| SlotRuns.RunAlwaysBoots | crates/smartbox-config/src/manager.rs:44-121 | from a blank store, over every careful run with any failures, an activated device boots a configuration it was prepared with |
| SlotRuns.PreparingKeepsCurrent | crates/smartbox-config/src/pipeline.rs:45-100 | in such a run no preparation changes what boots |
| SlotRuns.ActivatingMovesCurrent | crates/smartbox-config/src/manager.rs:76-89 | an activation boots the prepared update exactly when the pointer moved, else the earlier one |
| SlotRuns.TokenStaysGoodExactly | crates/smartbox-config/src/manager.rs:76-89 | a token survives a later preparation under all failures if and only if that used another slot or did not compile |
| ConfigManagement.ConfigStore.WriteBlob | crates/smartbox-config/src/storage.rs:16-21 | one cell changes, to the bytes or to whatever a failure leaves |
| ConfigManagement.ConfigStore.DiscardSlot | crates/smartbox-config/src/storage.rs:22-22 | both cells of the slot are emptied or left as the failure says |
| ConfigManagement.ConfigStore.WriteActiveSlot | crates/smartbox-config/src/storage.rs:9-9 | the pointer moves, or fails having moved or not |
| ConfigManagement.ConfigStore.ReadBlob | crates/smartbox-config/src/storage.rs:10-15 | the blob in the buffer, or the error |
| ConfigManagement.ConfigManager.PrepareUpdate | crates/smartbox-config/src/manager.rs:44-74 | compile, write both blobs, discard on failure: the store and result of the model |
| ConfigManagement.ConfigManager.PrepareBlob | crates/smartbox-config/src/pipeline.rs:180-222 | encode into scratch, write, and discard the slot when either fails |
| ConfigManagement.ConfigManager.ActivatePrepared | crates/smartbox-config/src/manager.rs:76-89 | slot mismatch, or the pointer write and its error |
| ConfigManagement.ConfigManager.BootLoad | crates/smartbox-config/src/pipeline.rs:102-178 | reads only; the result is the boot result of the model |
| Handoff.PutIsClean | examples/esp32c3_mqtt_server/src/main.rs:420-474 | a socket is put only into an empty cell of a reserved slot, and never twice |
| Handoff.StepInv | examples/esp32c3_mqtt_server/src/main.rs:281-474 | every step of the accept task and of every worker keeps the hand-off invariant |
| Handoff.HandoffIsSafe | examples/esp32c3_mqtt_server/src/main.rs:281-474 | in every interleaving a slot's buffers back at most one live socket, no worker sleeps on an unset signal beside a waiting socket, and each socket handed over is taken exactly once, by its own worker |
| Handoff.NextStepTakes | examples/esp32c3_mqtt_server/src/main.rs:281-291 | a worker with a waiting socket can always step, and its next step takes that socket |
| Handoff.ReleaseNeverBlocked | examples/esp32c3_mqtt_server/src/main.rs:293-302 | the lock held through the accept back-off never blocks a worker's release |

## Left out

- The bytes of outgoing frames: packets are structured values, and only whether a frame fits its 192 bytes is modelled. The `mqttrs` encoder and decoder are not part of this model.
- The payload format of stored blobs: `postcard` is a pair of functions, and the results that need it assume that reading undoes writing.
- Partial writes: a write that fails counts as an attempt, not as a transmission, whatever reached the client.
- Cancelled reads: `select` can drop a half-read frame; the framing results are about reads that run to their end.
- A delivery guarantee for wills: their queueing under a second lock is a step of the model and keeps every invariant, but nothing is promised about it.
- Constant time: `CtEq` is proved to decide equality; its timing is outside the model, and CONNECT uses the outcome as a boolean.
- TLS transports and adapters, identity storage, `active_slot.rs` and the memory layout of `slot.rs`: easy members, or outside what the model expresses.
- Logging, `tools/`, and the bootstrap of the firmware example: input, output and set-up.
- The branch that releases a handle when an inflight entry could not be added: it is dead, because room is checked first.
- The `qos` field of inflight entries, which is always QoS 1.
- The width of property values in rules, which nothing in the compiler looks at, is one tag and one number.
- SlotRuns.RunAlwaysBoots: a failing pointer write leaves the old or the new pointer, never a third value.
- Timers.SilentSessionExpires: how late the executor fires a timer is a parameter; that it fires at all is outside the model.
