# Gravebound client authority models

Gravebound is server-authoritative: its clients receive facts out of order, duplicated, stale or
split, and must never act on a combination the server did not authorise. This project models the
client protocol endpoints that keep that promise and proves what they keep over whole runs.

Each endpoint appears twice. A datatype and pure step functions say what one call does; a class with
the same fields updates them in place, and each method's contract equates the new state and the reply
with one step. The theorems are about the steps and about arbitrary sequences of them.

| part | files |
|---|---|
| Private-route authority: location, projection and readiness merged under a generation token | `RouteProtocol`, `RouteModel`, `RouteClient`, `RouteRuns`, `RouteConfluence`, `RouteAnswers` |
| Chunked snapshots and the bot that reads them | `SnapshotWire`, `BotAssembler`, `AssemblyRuns`, `BotObservation`, `JourneyBot`, `JourneyRuns`, `JourneyMeaning` |
| Version-gated snapshot client behind the route | `NativeAssembler`, `NativeAssemblyRuns`, `SnapshotClient`, `SnapshotClientRuns` |
| Actor binding, telegraphs and ring geometry | `CombatWire`, `CombatPresentation`, `PresentationRuns`, `RingGap` |
| Outer life phase over the route model, and both clients together | `PrivateLife`, `PrivateLifeClient`, `PrivateLifeRuns`, `LifeMeaning`, `LifeSnapshotRuns` |
| Exact retry and two-step confirmation | `Consumable`, `ConsumableRuns`, `Bargain`, `BargainRuns` |
| Press samplers | `PressSampler` |
| Evidence probe | `DeathProbe`, `ProbeRuns`, `ProbeTiming` |

Conventions. A 16-byte identity is the little-endian number of its bytes, so zero is the all-zero
array. Machine integers are bounded subsets of the integers; saturation, wrap-around and checked
additions are written out where the code has them. Content hashes are numbers compared for equality,
zero being the all-zero text. Payload hashes are ideal: injective and never zero. Clocks, fresh
mutation identities, send results and file writes are inputs of the step that uses them. Errors and
failures that the code always raises in pairs of one name are one enumeration.

Results where the code does less than one might expect are stated with their exact condition: when
arrival order shows, when a call moves held authority back, when a sent choice is one its offer can
make, when the snapshot on show outruns the bound version, when a failed transfer stays pending, when
a wrapped ring gap hides too little, when a distance key is the true distance, and when a report's
timings pass their own check. For the choice, the snapshot and the
transfer, a run from a new client that reaches the failing state is proved too.

## Model

| member | source | states |
|---|---|---|
| `RouteRuns.ControlSafety` | crates/client_bevy/src/core_private_route.rs:162-437 | In every run of a new model the phase is Controllable exactly when it is not fatal and location, projection and readiness are all present, of this character, and agree on version, scene, room, lineage, generation, state version and both compiled revisions, with input admitted; the feature is then negotiated, the place is spelled out and the phase is not terminal |
| `RouteRuns.PlacesMatchExactly` | crates/client_bevy/src/core_private_route.rs:472-496 | A valid projection and a durable location are of one place exactly when both are of one character and the location is the Hall, or the very scene and lineage |
| `RouteProtocol.OffersFitTheScene` | crates/protocol/src/core_private_route.rs:201-243 | A valid projection offers each interaction only at its own place: the Bell portal in a cleared microrealm, a room exit outside the arena, extraction only in a ready boss arena, and input until the terminal phase |
| `RouteProtocol.CompatibleExactly` | crates/client_bevy/src/core_private_route.rs:162-175 | A handshake is taken exactly for major version 1, minor 18 to 25, rates 30 and 15, and at most 64 pairwise different flags |
| `RouteRuns.StepAuthentic` | crates/client_bevy/src/core_private_route.rs:102-437 | One call of any kind keeps everything held valid, of this character and content, above the retired floor, with a failure recorded exactly in the fatal phase |
| `RouteRuns.RunAuthentic` | crates/client_bevy/src/core_private_route.rs:102-437 | The same over every run |
| `RouteRuns.FatalLatch` | crates/client_bevy/src/core_private_route.rs:162-193 | One call leaves the fatal phase if and only if it is a valid compatible server hello; every other call but link loss then fails |
| `RouteRuns.FatalStaysLatched` | crates/client_bevy/src/core_private_route.rs:395-398 | A run without a compatible hello never leaves the fatal phase |
| `RouteRuns.StepMonotone` | crates/client_bevy/src/core_private_route.rs:313-393 | A call keeps the held (generation, version) pair from moving back if and only if it is not a feature-disabling hello over a held projection; none lowers the retired floor |
| `RouteRuns.AuthorityNeverRegresses` | crates/client_bevy/src/core_private_route.rs:329-393 | Between any two moments with no feature-disabling hello in between, reconnects included, the held pair never decreases lexicographically |
| `RouteRuns.RetiredStaysRetired` | crates/client_bevy/src/core_private_route.rs:313-327 | After a successful retirement no projection of a retired generation is held again in any run at all |
| `RouteRuns.DisablingForgetsAuthority` | crates/client_bevy/src/core_private_route.rs:176-192 | The premise about disabling hellos is needed: after a disabling and an enabling hello any valid frame is taken exactly when its generation is above the retired floor, however old its pair |
| `RouteRuns.StepToken` | crates/client_bevy/src/core_private_route.rs:372-391 | An advance over a held projection needs the authorisation, uses it up and discards location and readiness; only granting calls give it, only location and readiness calls supply those |
| `RouteRuns.AdvancesAreSeparatelyGranted` | crates/client_bevy/src/core_private_route.rs:372-391 | Between two generation advances of one run there is a granting call: an authorised hello, a committed-transfer refresh or a retirement |
| `RouteRuns.ControlAfterAdvanceIsFresh` | crates/client_bevy/src/core_private_route.rs:372-437 | Control after an advance rests on a location and a readiness that calls after it delivered, by passing or by changing what is held |
| `RouteConfluence.DeliveryConfluence` | crates/client_bevy/src/core_private_route.rs:236-309 | With nothing held, or only the frame's own projection as after a reconnect: for every word over one consistent frame, location and readiness, repeats included, every call passes and the model depends only on which of the three have arrived |
| `RouteConfluence.CompleteDeliveriesAgree` | crates/client_bevy/src/core_private_route.rs:236-437 | Any two complete deliveries then end in one identical model, controllable unless the route is terminal |
| `RouteConfluence.FrameDiscardsEarlierLocation` | crates/client_bevy/src/core_private_route.rs:372-385 | Over a held older generation a location delivered before the newer frame does not survive it |
| `RouteConfluence.ConfluenceExactly` | crates/client_bevy/src/core_private_route.rs:236-437 | For every admissible frame with its location and readiness: all complete deliveries, any order and repeats, end in one model if and only if nothing is held, or the frame's own projection is, or the route is terminal and its location does not contradict what is held of its generation |
| `RouteConfluence.HeldProjectionBreaksConfluence` | crates/client_bevy/src/core_private_route.rs:288-393 | Over any other held projection a non-terminal frame gives control when it comes first and leaves the scene loading when the readiness does |
| `RouteConfluence.HeldGenerationBreaksConfluence` | crates/client_bevy/src/core_private_route.rs:372-437 | Over an older generation the location-first order cannot give control either |
| `RouteConfluence.ReconnectIsConsistent` | crates/client_bevy/src/core_private_route.rs:162-205 | Link loss and an enabling hello keep the held projection, so the server's repeat of it merges in any order |
| `RouteClient.CorePrivateRouteClientModel.New` | crates/client_bevy/src/core_private_route.rs:103-128 | No model for an all-zero character or an invalid route revision; otherwise a disabled model with nothing held |
| `RouteClient.CorePrivateRouteClientModel.AcceptServerHello` | crates/client_bevy/src/core_private_route.rs:162-193 | The in-place method makes exactly the handshake transition and reports whether the feature is authorised |
| `RouteClient.CorePrivateRouteClientModel.TransportLost` | crates/client_bevy/src/core_private_route.rs:197-205 | Link loss drops location, readiness and the authorisation, keeps the projection, and awaits authority unless disabled or fatal, each stated outright |
| `RouteClient.CorePrivateRouteClientModel.BeginCommittedTransferRefresh` | crates/client_bevy/src/core_private_route.rs:209-219 | A transfer refresh, refused when unauthorised or fatal, drops location and readiness and grants one advance |
| `RouteClient.CorePrivateRouteClientModel.ApplyWorldTransition` | crates/client_bevy/src/core_private_route.rs:223-234 | A transition is applied only when ready and located, as its location |
| `RouteClient.CorePrivateRouteClientModel.ApplyLocation` | crates/client_bevy/src/core_private_route.rs:236-255 | A location is applied as the transition the safety and confluence theorems are about |
| `RouteClient.CorePrivateRouteClientModel.ApplyReliable` | crates/client_bevy/src/core_private_route.rs:257-286 | A reliable frame is applied as that transition: stale, replayed, conflicting and unexpected frames included |
| `RouteClient.CorePrivateRouteClientModel.ApplySceneReadiness` | crates/client_bevy/src/core_private_route.rs:288-311 | A readiness is applied as that transition: rejected, mismatching and foreign readiness included |
| `RouteClient.CorePrivateRouteClientModel.RetireDangerGeneration` | crates/client_bevy/src/core_private_route.rs:313-327 | Retirement raises the floor to the held generation and drops everything held |
| `RouteClient.CorePrivateRouteClientModel.AcceptRouteState` | crates/client_bevy/src/core_private_route.rs:329-393 | A projection is admitted, replayed, refused as stale, or latched as a breach, in the order of the checks |
| `RouteClient.CorePrivateRouteClientModel.ReconcileAuthority` | crates/client_bevy/src/core_private_route.rs:395-437 | The phase and the kept readiness follow from the three streams alone |
| `RouteClient.CorePrivateRouteClientModel.RejectSceneReadiness` | crates/client_bevy/src/core_private_route.rs:447-456 | A rejected readiness is dropped and the phase falls back to loading unless fatal |
| `RouteClient.CorePrivateRouteClientModel.FailWith` | crates/client_bevy/src/core_private_route.rs:458-469 | A breach drops location, readiness and the authorisation and latches the fatal phase |
| `RouteAnswers.RevocationStep` | crates/client_bevy/src/core_private_route.rs:162-219 | Every handshake, lost link, granted transfer refresh and retirement, and every breach, leaves no place, no readiness and no control; a lost link or a breach takes the authorisation, a granting call leaves it given, and a lost link keeps projection and floor |
| `RouteAnswers.ControlAfterRevocationIsFresh` | crates/client_bevy/src/core_private_route.rs:197-219 | On every run, control at j after a link loss, handshake, transfer refresh, retirement or breach at i < j has a location and a readiness call that applied theirs strictly between |
| `RouteAnswers.AdvanceAfterLossIsGranted` | crates/client_bevy/src/core_private_route.rs:197-205 | On every run, a generation advance after a link loss has a granting call strictly between |
| `RouteAnswers.RunTells` | crates/client_bevy/src/core_private_route.rs:395-437 | In every run: disabled exactly when the feature is off and nothing is broken; awaiting only while place and projection do not align; loading only without a readiness; a terminal wait only on an aligned terminal projection; and aligned streams name one place unless broken |
| `RouteAnswers.AdmissionExactly` | crates/client_bevy/src/core_private_route.rs:329-393 | A valid projection is taken exactly when own, compiled, above the floor and newer, with the token if its generation is; ignored exactly when behind or retired; a replay exactly when identical |
| `RouteAnswers.LocationExactly` | crates/client_bevy/src/core_private_route.rs:236-255 | A location call that passes holds exactly that place and settles the phase from the three streams; otherwise it is refused or breaks the model for the stated cause |
| `RouteAnswers.NewFrameExactly` | crates/client_bevy/src/core_private_route.rs:265-286 | A frame of a new sequence that passes holds its projection and sequence and keeps older deliveries only of its generation; stale ones change nothing |
| `RouteAnswers.FrameExactly` | crates/client_bevy/src/core_private_route.rs:257-286 | Old, repeated, foreign and unexpected frames: which are refused without a trace, which pass, which break the model |
| `RouteAnswers.ReadinessExactly` | crates/client_bevy/src/core_private_route.rs:288-311 | A readiness that passes is held, a rejected one drops the held one and falls back to loading, and a foreign revision breaks the model |
| `RouteAnswers.BreaksExactly` | crates/client_bevy/src/core_private_route.rs:162-437 | Every call on a model that is not broken breaks it exactly when one of the listed causes holds, under that cause's name |
| `RouteAnswers.HelloForgets` | crates/client_bevy/src/core_private_route.rs:162-193 | A compatible handshake leaves exactly what a new model has after it, plus the retired floor and, when the feature is offered, the held projection |
| `RouteAnswers.BrokenAnswers` | crates/client_bevy/src/core_private_route.rs:439-469 | A broken model answers transfers, retirements, and deliveries of its own content with the fatal error, or with the missing feature and no change |
| `SnapshotWire.IndicesComplete` | crates/bot_client/src/journey.rs:81-84 | Pigeonhole behind the completeness test: as many distinct in-range indices as the count are all the indices |
| `SnapshotWire.Gather` | crates/bot_client/src/journey.rs:89-98 | The gathering loop yields the concatenation by index, and reports exactly whether all identities differ |
| `BotAssembler.BotSnapshotAssembler.IngestChunk` | crates/bot_client/src/journey.rs:40-107 | The in-place assembler makes exactly the transition the run theorems are about and keeps its indices in range |
| `AssemblyRuns.ChunkExactly` | crates/bot_client/src/journey.rs:75-106 | For every reachable assembler a chunk completes a snapshot exactly when it is valid, newer, agreeing and new, every index below the count is then held, and all identities differ; the snapshot is the concatenation by index under its metadata |
| `AssemblyRuns.FittingChunk` | crates/bot_client/src/journey.rs:75-106 | Otherwise such a chunk is held, or over a repeated identity the whole snapshot is dropped |
| `AssemblyRuns.MisfitIsRefused` | crates/bot_client/src/journey.rs:40-74 | Every other chunk changes nothing: malformed, disagreeing and conflicting ones are refused, stale ones and exact repeats ignored |
| `AssemblyRuns.EmissionsIncrease` | crates/bot_client/src/journey.rs:40-107 | Over every run emitted sequences strictly increase and each emitted snapshot has distinct identities |
| `AssemblyRuns.AssemblyFollowsSeen` | crates/bot_client/src/journey.rs:40-107 | For one snapshot under any arrival order, exact repeats and older traffic, the pending map holds exactly the indices seen |
| `AssemblyRuns.EmittedExactlyOnCompletion` | crates/bot_client/src/journey.rs:75-106 | The snapshot is emitted at exactly one position, the arrival of the last missing index, and equals the concatenation by index |
| `AssemblyRuns.CoveringRunEmits` | crates/bot_client/src/journey.rs:75-106 | A run that contains every chunk does emit it and leaves nothing pending |
| `AssemblyRuns.EmittedIsBounded` | crates/protocol/src/messages.rs:215-238 | An emitted snapshot holds at most 2048 entities, each named, and each combatant within its health |
| `BotObservation.NearestIsLeast` | crates/bot_client/src/journey.rs:503-517 | The scan finds nothing exactly when nothing is wanted, and otherwise a wanted entity no other precedes by (squared distance, identity) |
| `BotObservation.NearestIgnoresOrder` | crates/bot_client/src/journey.rs:503-517 | The nearest entity does not depend on the order of an entity list with distinct identities |
| `BotObservation.ObservationMeaning` | crates/bot_client/src/journey.rs:472-517 | The snapshot is observed exactly when the controlled player is in it; the enemy shown is present exactly when an enemy or boss is alive with health, the pickup exactly when a personal pickup is alive, eligible and not collected, and each is the first of those by squared distance, then identity |
| `BotObservation.ObserveIgnoresOrder` | crates/bot_client/src/journey.rs:472-501 | Player, nearest enemy and nearest pickup do not depend on the order of the entities |
| `BotObservation.PackagingIsInvisible` | crates/bot_client/src/journey.rs:40-107 | Two ways of cutting one entity set into chunks, each delivered in any order with repeats and stale traffic, give one and the same observation |
| `BotObservation.DistanceExact` | crates/bot_client/src/journey.rs:503-517 | The distance key is the true squared distance if and only if both differences survive 32-bit subtraction up to sign and are not both extreme |
| `BotObservation.FixedDirectionIsUnit` | crates/bot_client/src/journey.rs:519-531 | Away from the origin the direction has max-norm exactly 1000, keeps signs, truncates toward zero by less than one unit and fits 16 bits |
| `JourneyBot.SnapshotBot.Ingest` | crates/bot_client/src/journey.rs:226-265 | Ingesting a chunk updates observation, outcome and evidence exactly as the transition says; what it reports is the controlled player, a living enemy or boss, and an open personal pickup |
| `JourneyBot.SnapshotBot.Input` | crates/bot_client/src/journey.rs:267-318 | The next input and the sequences it consumes are exactly those of the transition |
| `JourneyBot.SnapshotBot.PickupRequest` | crates/bot_client/src/journey.rs:320-353 | A request is issued only for an eligible pickup in reach that is neither resolved nor pending |
| `JourneyBot.SnapshotBot.MutationAnswered` | crates/bot_client/src/journey.rs:426-443 | Only the outstanding mutation can be answered; acceptance resolves its pickup |
| `JourneyBot.SnapshotBot.ControlAnswered` | crates/bot_client/src/journey.rs:445-470 | Only an accepted join or reattach binds the session, and the destination sets the outcome |
| `JourneyRuns.BigEndianRoundTrip` | crates/bot_client/src/journey.rs:343-345 | Big-endian bytes decode to the number they encode |
| `JourneyRuns.MutationIdInjective` | crates/bot_client/src/journey.rs:343-345 | Mutation identities are equal exactly when their sequences are, start with the bot's eight-byte mark and decode to their sequence |
| `JourneyRuns.PickupsAreConserved` | crates/bot_client/src/journey.rs:320-443 | Over every run at most one mutation is outstanding, mutation and pickup are pending together, the pending pickup is unresolved, every issued request is accepted, rejected or that one, and accepted ones are the resolved set, up to saturation |
| `JourneyRuns.RequestsAreDistinct` | crates/bot_client/src/journey.rs:320-353 | No two requests of a run share an identity, and the later one is for no pickup resolved before it |
| `JourneyRuns.InputsStaySteady` | crates/bot_client/src/journey.rs:267-318 | After every run the next frame aims with max-norm 1000, moves not at all or where it aims, and fires only standing still |
| `JourneyMeaning.HeldWasObserved` | crates/bot_client/src/journey.rs:226-265 | On every run the observation held is that of the last completed snapshot with the controlled player in it |
| `JourneyMeaning.ChunkAnswers` | crates/bot_client/src/journey.rs:226-265 | A chunk is answered with the assembler's refusal, with nothing, or for a complete snapshot by whether the controlled player is in it; only an observation changes more than the assembler |
| `JourneyMeaning.AssemblerSeesEveryChunk` | crates/bot_client/src/journey.rs:226-265 | In every run the bot's assembler is where its chunks alone would have taken it |
| `JourneyMeaning.RequestMeaning` | crates/bot_client/src/journey.rs:320-353 | A request is issued exactly for an observed pickup within 1100 units, unresolved, with nothing outstanding, on an active journey, under the next sequence |
| `JourneyMeaning.RequestsNameSeenPickups` | crates/bot_client/src/journey.rs:226-353 | Every request of every run names an alive, eligible, uncollected personal pickup of the last observed snapshot, the first by distance |
| `JourneyMeaning.AnswerMeaning` | crates/bot_client/src/journey.rs:426-443 | Only the outstanding identity is answered; an acceptance resolves exactly its pickup, a rejection none, and both free the slot |
| `JourneyMeaning.InputMeaning` | crates/bot_client/src/journey.rs:267-318 | The next frame aims along the offset to the target, moves only as a fighter toward a pickup, fires only as a fighter at an enemy with no pickup in sight, and carries the next sequence and the observed tick |
| `JourneyMeaning.ControlMeaning` | crates/bot_client/src/journey.rs:445-470 | Only an accepted join or reattach binds its session and entity, only a reattach counts as a reconnect, and each destination sets its own outcome |
| `JourneyMeaning.OutcomeMeaning` | crates/bot_client/src/journey.rs:226-265 | Otherwise the outcome is the observed player's: active while alive, dead at zero health, else recalled |
| `JourneyMeaning.EvidenceIsExact` | crates/bot_client/src/journey.rs:226-265 | Over every run the evidence is exactly what the observations made show: their number, a damaged nearest enemy, a place away from the first |
| `JourneyMeaning.FriendlyEvidence` | crates/bot_client/src/journey.rs:226-265 | A friendly projectile is on record exactly from the first observed snapshot that shows one of the controlled player's |
| `JourneyMeaning.CountsAreExact` | crates/bot_client/src/journey.rs:267-318 | Over every run the sent inputs and accepted reattachments are counted exactly, up to saturation |
| `PressSampler.ClosedForm` | crates/client_bevy/src/combat.rs:726-811 | While the count fits 32 bits the counter is the number of pressed, unblocked, just risen, unlatched ticks, and the latch is the history's |
| `PressSampler.EveryHistory` | crates/client_bevy/src/combat.rs:726-811 | For every history at all: ticks at which the counter was exhausted leave no trace, and the closed form holds of the rest |
| `PressSampler.ExhaustionIsOverflow` | crates/client_bevy/src/combat.rs:745-751 | Exhaustion is reported exactly at a counted tick that would overflow, and changes nothing |
| `PressSampler.FlagMeaning` | crates/client_bevy/src/combat.rs:726-755 | After every history the stored held flag is up exactly when the last tick that was not exhausted is pressed, unblocked and not latched |
| `PressSampler.HeldMeansCountedOnce` | crates/client_bevy/src/combat.rs:726-755 | After every history a stored held flag belongs to a press of the ticks that left a trace, unbroken and counted exactly once, at its rising edge |
| `PressSampler.CombatInputSampler.SamplePrimary` | crates/client_bevy/src/combat.rs:726-755 | The primary sampler is one step of the latch, and reports held exactly as defined |
| `PressSampler.CombatInputSampler.SampleAbilityOne` | crates/client_bevy/src/combat.rs:757-783 | The first ability's sampler is one step of the latch |
| `PressSampler.CombatInputSampler.SampleAbilityTwo` | crates/client_bevy/src/combat.rs:785-811 | The second ability's sampler is one step of the latch |
| `PressSampler.ConsumableInputSampler.SampleQ` | crates/client_bevy/src/consumable.rs:189-215 | The first consumable's sampler is one step of the same latch |
| `PressSampler.ConsumableInputSampler.SampleSecond` | crates/client_bevy/src/consumable.rs:217-243 | The second consumable's sampler is one step of the same latch |
| `NativeAssembler.CompletionMatchesChunk` | crates/client_bevy/src/network_prediction.rs:53-131 | A completed snapshot has the sequence, tick and version of its completing chunk, is newer than the last and has distinct identities |
| `NativeAssembler.SnapshotAssembler.PushChunk` | crates/client_bevy/src/network_prediction.rs:53-131 | The in-place assembler, which evicts the oldest of four incomplete snapshots, makes exactly the transition, with the cause of each refusal, and completes a snapshot only when no index is missing |
| `NativeAssembler.CompletionWaits` | crates/client_bevy/src/network_prediction.rs:86-104 | A snapshot completes only when, with the arriving index, every index below its count is held |
| `NativeAssemblyRuns.RoomIsMade` | crates/client_bevy/src/network_prediction.rs:60-68 | A new sequence at four incomplete snapshots pushes out exactly the one with the least sequence, and otherwise nothing makes way |
| `NativeAssemblyRuns.CompletionExactly` | crates/client_bevy/src/network_prediction.rs:86-131 | For every reachable assembler a fresh, fitting chunk completes its snapshot exactly when the held indices and its own are all below the count and all identities differ; the snapshot is the concatenation by index under the chunk's metadata |
| `NativeAssemblyRuns.SnapshotIsFinished` | crates/client_bevy/src/network_prediction.rs:105-131 | Once every index is held, a completion drops every snapshot not newer, and a repeated identity drops only this one |
| `NativeAssemblyRuns.AssemblyFollowsSeen` | crates/client_bevy/src/network_prediction.rs:53-131 | For one snapshot under any arrival order, repeats and older traffic, evictions included, the assembler holds exactly the indices seen |
| `NativeAssemblyRuns.CompletedExactlyOnce` | crates/client_bevy/src/network_prediction.rs:86-131 | It is completed at exactly one position, the arrival of the last missing index, as the concatenation by index |
| `NativeAssemblyRuns.CoveringRunCompletes` | crates/client_bevy/src/network_prediction.rs:86-131 | A run that contains every chunk completes it and leaves nothing pending |
| `NativeAssemblyRuns.CompletionsIncrease` | crates/client_bevy/src/network_prediction.rs:53-131 | Over every run completed sequences strictly increase |
| `SnapshotClient.PrivateIdsAreDistinct` | crates/client_bevy/src/core_private_life.rs:717-724 | Dungeon player identities determine the generation |
| `SnapshotClient.CorePrivateSnapshotClient.ResetTransport` | crates/client_bevy/src/core_private_life.rs:614-616 | Reset leaves the empty client |
| `SnapshotClient.CorePrivateSnapshotClient.Bind` | crates/client_bevy/src/core_private_life.rs:618-664 | Binding keeps the assembler and latest snapshot exactly for the same generation and player, drops older versions and replays the bound one in key order up to a failure |
| `SnapshotClient.CorePrivateSnapshotClient.IngestChunk` | crates/client_bevy/src/core_private_life.rs:666-684 | A chunk is refused, ignored, assembled or buffered by its version, the lowest key making room |
| `SnapshotClient.CorePrivateSnapshotClient.ApplyBoundChunk` | crates/client_bevy/src/core_private_life.rs:686-714 | A completed snapshot counts only at the bound version with exactly one player, the expected one |
| `SnapshotClientRuns.EarlyEqualsLate` | crates/client_bevy/src/core_private_life.rs:618-684 | Distinct-key chunks of a version not bound yet may arrive first, in any order and without eviction: binding equals binding first and delivering in (sequence, index) order, failures included |
| `SnapshotClientRuns.EarlyOrderIsInvisible` | crates/client_bevy/src/core_private_life.rs:666-684 | Two arrival orders of the same early chunks bind to the same client |
| `SnapshotClientRuns.SortedAscends` | crates/client_bevy/src/core_private_life.rs:655-662 | Replay is strictly ascending in (version, sequence, index) |
| `SnapshotClientRuns.DeliverStops` | crates/client_bevy/src/core_private_life.rs:655-664 | Delivery stops at exactly the first chunk that fails, with what that chunk left |
| `SnapshotClientRuns.QueueStops` | crates/client_bevy/src/core_private_life.rs:1872-1887 | So does the queue of drained datagrams |
| `SnapshotClientRuns.SnapshotsFollowTheRoute` | crates/client_bevy/src/core_private_life.rs:618-714 | In every run behind a route model the buffer never exceeds 128 and is strictly newer than the bound version, and the latest snapshot is never newer than it, has distinct identities and the one expected player |
| `SnapshotClientRuns.PolledSnapshotIsTheRoutes` | crates/client_bevy/src/core_private_life.rs:1872-1887 | After a poll that binds, version, generation and player are those of the held projection |
| `LifeSnapshotRuns.WorldsAreKept` | crates/client_bevy/src/core_private_life.rs:614-714 | In every run of both clients, re-selections and fatal transport errors included, the outer phase refines the route, the buffer is bounded and newer than the binding, and the latest snapshot has distinct identities and the one expected player |
| `LifeSnapshotRuns.CurrentLostExactly` | crates/client_bevy/src/core_private_life.rs:635-662 | The snapshot on show becomes newer than the bound version exactly when a poll ends on a projection of the same generation and player with an older version and no snapshot of that version completes, and then the selection has moved since the last binding |
| `LifeSnapshotRuns.StaysCurrent` | crates/client_bevy/src/core_private_life.rs:635-662 | In every run in which no poll ends on such a projection, it never is |
| `LifeSnapshotRuns.LagIsReachable` | crates/client_bevy/src/core_private_life.rs:866-892 | Seven events from a new client reach it: a second character's selection and projection inside one poll |
| `SnapshotClientRuns.RebindExactly` | crates/client_bevy/src/core_private_life.rs:635-657 | Binding keeps the assembler and the snapshot exactly for the same generation and player, and of the buffer exactly the newer versions |
| `SnapshotClientRuns.BindExactly` | crates/client_bevy/src/core_private_life.rs:655-664 | Binding feeds exactly the waiting chunks of the bound version and keeps exactly the newer ones waiting |
| `SnapshotClientRuns.InsertExactly` | crates/client_bevy/src/core_private_life.rs:676-683 | A kept chunk is in the buffer under its key; of 128 others exactly the first in key order makes way |
| `SnapshotClientRuns.ShownExactly` | crates/client_bevy/src/core_private_life.rs:686-714 | A completed snapshot goes on show exactly when its only player is the expected one, and fails otherwise |
| `SnapshotClientRuns.HallIdExactly` | crates/client_bevy/src/core_private_life.rs:726-730 | A Hall player carries the low eight bytes of the character identity, or one when they are zero |
| `SnapshotClientRuns.OtherCharacterKeepsSnapshot` | crates/client_bevy/src/core_private_life.rs:644-651 | Binding straight to another character of the same generation keeps the old snapshot, newer than the bound version exactly when it was |
| `CombatPresentation.CorePrivateCombatPresentation.ApplyState` | crates/client_bevy/src/core_private_life.rs:246-293 | A presentation state is adopted or refused as one transition; a refused one changes nothing |
| `CombatPresentation.CorePrivateCombatPresentation.Retain` | crates/client_bevy/src/core_private_life.rs:295-302 | The table is reset exactly when generation, scene or room differ from the route |
| `CombatPresentation.CorePrivateCombatPresentation.BindingForSnapshot` | crates/client_bevy/src/core_private_life.rs:304-346 | With distinct snapshot identities a binding is returned if and only if generation, scene, room and version fit and players, enemies and bosses are the bound actors one to one, each under its own kind |
| `CombatPresentation.CountingIsPairing` | crates/client_bevy/src/core_private_life.rs:319-345 | Over distinct identities, all bound and equally many is exactly one to one and onto |
| `CombatPresentation.PairedIsShown` | crates/client_bevy/src/core_private_life.rs:319-345 | Over distinct identities the test passes exactly when the players, enemies and bosses seen are the bound actors, each under its own kind |
| `CombatPresentation.RepeatedIdentityDefeatsTheCount` | crates/client_bevy/src/core_private_life.rs:319-345 | Distinct identities are needed: a bound enemy seen twice passes the count while another actor is never seen |
| `PresentationRuns.AcceptanceExactly` | crates/client_bevy/src/core_private_life.rs:246-268 | A state is accepted exactly when valid, of the route's revision, generation, scene and room, of no later version, and with supported content only |
| `PresentationRuns.RejectionIsHarmless` | crates/client_bevy/src/core_private_life.rs:246-293 | Acceptance is exactly validity and fit; rejection leaves the table; acceptance binds every listed actor and shows every listed telegraph |
| `PresentationRuns.RunSound` | crates/client_bevy/src/core_private_life.rs:246-302 | In every run each standing telegraph has a bound source, its own name and a valid shape, and has not resolved before the last accepted tick |
| `PresentationRuns.TelegraphProvenance` | crates/client_bevy/src/core_private_life.rs:269-302 | A standing telegraph was announced by one accepted state of the table's context and has outlived every call since: no reset, no route or accepted state of another context, and every accepted state bound its source in time and announced nothing else under its name |
| `PresentationRuns.StandsExactly` | crates/client_bevy/src/core_private_life.rs:269-302 | A telegraph stands if and only if some call announced it and it has outlived every call since |
| `PresentationRuns.LiveBindingIsExact` | crates/client_bevy/src/core_private_life.rs:304-346 | On a live session the count that admits the latest snapshot is an exact pairing, and the one bound player is the session's own |
| `CombatWire.ActorsAreDistinct` | crates/protocol/src/core_combat_presentation.rs:125-137 | Ascending neighbours make actor identities distinct |
| `CombatWire.TelegraphsAreDistinct` | crates/protocol/src/core_combat_presentation.rs:141-161 | Ascending neighbours make cast names distinct |
| `CombatWire.OnePlayer` | crates/protocol/src/core_combat_presentation.rs:126-141 | The player count is one exactly when some position holds a player and no other does |
| `CombatWire.SupportedContent` | crates/client_bevy/src/core_private_life.rs:349-366 | Content is supported exactly when it decides the kind: the one class, the one boss, or a listed enemy |
| `CombatWire.RaysAscend` | crates/protocol/src/core_combat_presentation.rs:174-190 | The rays of a valid fan ascend, so no two share an angle |
| `RingGap.GapIsCyclic` | crates/client_bevy/src/core_private_life.rs:4549-4553 | Without wrapping, the gap is the cyclic interval of its length from its start |
| `RingGap.RingClosedForm` | crates/client_bevy/src/core_private_life.rs:4549-4564 | The drawn indices are the complement of that interval, ascending, segments minus gap of them |
| `RingGap.ValidRingLeavesItsGap` | crates/client_bevy/src/core_private_life.rs:4540-4565 | For every shape that passes validation: no sum wraps, the gap start is not drawn and the segment after the gap is |
| `RingGap.RingCountExactly` | crates/client_bevy/src/core_private_life.rs:4549-4553 | For every gap no longer than its ring, wrapped sums included: exactly the gap's length is hidden if and only if no sum wraps, or the ring divides 256, or the gap is no longer than what 256 leaves over; never more is |
| `PrivateLifeRuns.PhaseRefinesRoute` | crates/client_bevy/src/core_private_life.rs:1326-1347 | In every run, phase Hall or PrivateRoute implies that the selected character's route model exists, is controllable with its streams agreed, and is in the matching scene, under a compatible handshake with all features |
| `PrivateLifeRuns.NextKept` | crates/client_bevy/src/core_private_life.rs:803-1347 | One delivery under the poll's rule, or one player action, keeps that and keeps the route bound to the selection unless fatal |
| `PrivateLifeRuns.TransferKept` | crates/client_bevy/src/core_private_life.rs:922-996 | Beginning a transfer keeps it even when it fails, with no rule about errors |
| `PrivateLifeRuns.RebindHeld` | crates/client_bevy/src/core_private_life.rs:866-892 | Rebinding keeps the route model of the selected character, or a fatal one |
| `PrivateLifeRuns.RuleIsNeeded` | crates/client_bevy/src/core_private_life.rs:1839-1841 | Without the rule that an error forces the error phase, a frame that breaks the route in the Hall leaves the phase Hall |
| `PrivateLifeRuns.FailedTransferLeftPending` | crates/client_bevy/src/core_private_life.rs:967-985 | A failed transfer is left pending if and only if everything was ready and the route was disabled or fatal |
| `PrivateLifeRuns.StuckTransferIsReachable` | crates/client_bevy/src/core_private_life.rs:922-985 | Six events from a new client reach it: at character select with a transfer pending that was never sent, and no transfer can be begun |
| `PrivateLifeClient.CorePrivateLifeClient.AcceptServerHello` | crates/client_bevy/src/core_private_life.rs:803-820 | The handshake transition: refused, disabled, or loading with the route rebound |
| `PrivateLifeClient.CorePrivateLifeClient.RebindSelectedRoute` | crates/client_bevy/src/core_private_life.rs:866-892 | The route is dropped, re-greeted or replaced; on a failed replacement the old one stays |
| `PrivateLifeClient.CorePrivateLifeClient.SetAccount` | crates/client_bevy/src/core_private_life.rs:848-864 | A new selection clears what was pending and rebinds; the roster is shown unless disabled |
| `PrivateLifeClient.CorePrivateLifeClient.ApplyBootstrap` | crates/client_bevy/src/core_private_life.rs:822-830 | A bootstrap error fails the client, a snapshot is set |
| `PrivateLifeClient.CorePrivateLifeClient.ApplyCharacterMutation` | crates/client_bevy/src/core_private_life.rs:832-846 | A refused mutation sets the snapshot it carries and fails; an accepted one must carry one |
| `PrivateLifeClient.CorePrivateLifeClient.BeginLocationQuery` | crates/client_bevy/src/core_private_life.rs:894-920 | One query at a time, only for a selected character whose place is unknown |
| `PrivateLifeClient.CorePrivateLifeClient.BeginTransfer` | crates/client_bevy/src/core_private_life.rs:922-996 | A transfer is requested only from its allowed place, the realm gate in the Lantern Halls and the Bell portal in the microrealm; the fresh identity is an input |
| `PrivateLifeClient.CorePrivateLifeClient.ApplyWorldFlow` | crates/client_bevy/src/core_private_life.rs:998-1048 | Only pending requests can be answered; refusals force the error phase |
| `PrivateLifeClient.CorePrivateLifeClient.AcceptLocation` | crates/client_bevy/src/core_private_life.rs:1050-1076 | A location of the selected character reaches the route model, then readiness and phase follow |
| `PrivateLifeClient.CorePrivateLifeClient.ApplyRoute` | crates/client_bevy/src/core_private_life.rs:1078-1102 | A route frame reaches the route model, then readiness and phase follow |
| `PrivateLifeClient.CorePrivateLifeClient.ApplyCompiledReadiness` | crates/client_bevy/src/core_private_life.rs:1287-1313 | Readiness is compiled from the held projection exactly when its character version is the location's |
| `PrivateLifeClient.CorePrivateLifeClient.SyncPhase` | crates/client_bevy/src/core_private_life.rs:1326-1347 | The outer phase is the route phase's image |
| `PrivateLifeClient.CorePrivateLifeClient.ApplyTerminalResult` | crates/client_bevy/src/core_private_life.rs:1104-1136 | A stored result clears the place and refreshes the route; others change nothing modelled |
| `PrivateLifeClient.CorePrivateLifeClient.TransportLost` | crates/client_bevy/src/core_private_life.rs:1315-1324 | Link loss reaches the route model and clears what was pending |
| `LifeMeaning.TransferExactly` | crates/client_bevy/src/core_private_life.rs:922-996 | A transfer is sent exactly when no listed refusal applies, with the next sequence, the fresh identity and the known place's character and version; the client then waits with its route refreshed |
| `LifeMeaning.HallSendsTheRealmGate` | crates/client_bevy/src/core_private_life.rs:939-957 | In every kept state, phase Hall, located and nothing pending: the realm gate is sent and every other way refused |
| `LifeMeaning.MicrorealmSendsTheBellPortal` | crates/client_bevy/src/core_private_life.rs:939-957 | In the microrealm the Bell portal is sent exactly while the held projection shows it open, and every other way refused |
| `LifeMeaning.QueryExactly` | crates/client_bevy/src/core_private_life.rs:894-920 | A location is asked for exactly for a selected character whose place is unknown and not asked for yet |
| `LifeMeaning.RequestSequencesIncrease` | crates/client_bevy/src/core_private_life.rs:894-996 | Over every run the requests sent, queries and transfers alike, carry strictly increasing sequences |
| `LifeMeaning.PlaceIsOwn` | crates/client_bevy/src/core_private_life.rs:1050-1076 | In every run the known place, and the one asked for, is the selected character's |
| `LifeMeaning.RebindExactly` | crates/client_bevy/src/core_private_life.rs:866-892 | Under a compatible full handshake the route model is exactly that of the selection, greeted, holding at most what the same character's model held |
| `LifeMeaning.IncompatibleRebind` | crates/client_bevy/src/core_private_life.rs:866-892 | Under a full handshake of an incompatible version the same character's route model breaks, and a missing or other one is not replaced |
| `LifeMeaning.HelloExactly` | crates/client_bevy/src/core_private_life.rs:803-820 | A handshake is refused, disables the client, or starts loading with that route model |
| `LifeMeaning.AccountExactly` | crates/client_bevy/src/core_private_life.rs:848-864 | The same selection only shows the roster; another one also forgets the place and everything pending |
| `LifeMeaning.MutationExactly` | crates/client_bevy/src/core_private_life.rs:822-846 | A refused mutation fails the client after setting the account it carries; an accepted one must carry one |
| `LifeMeaning.AnswersExactly` | crates/client_bevy/src/core_private_life.rs:998-1048 | An unasked answer fails the client and touches neither place nor route; an asked one is pending no more |
| `LifeMeaning.MalformedIsRefused` | crates/protocol/src/world_flow.rs:266-320 | Exactly the answers whose number, name, verdict, code, place and receipt do not go together are refused as malformed, without a trace |
| `LifeMeaning.PlaceExactly` | crates/client_bevy/src/core_private_life.rs:1050-1076 | A place is accepted exactly for the selected character; character select needs no route, a world place does |
| `LifeMeaning.CompiledExactly` | crates/client_bevy/src/core_private_life.rs:1287-1313 | Readiness is compiled exactly when a projection is held and the place known is of its character version; the route then holds the readiness of exactly that projection unless the streams agree it is terminal |
| `LifeMeaning.LinkLossForgets` | crates/client_bevy/src/core_private_life.rs:1315-1324 | Link loss forgets the place and every request, and takes from the route its deliveries and token but not its projection |
| `LifeMeaning.RetryAsksAgain` | crates/client_bevy/src/core_private_life.rs:3440-3446 | A retry forgets the failure, the place and every request, so that the selected character's place is asked for again |
| `LifeMeaning.UnsentIsForgotten` | crates/client_bevy/src/core_private_life.rs:3488-3508 | A query or transfer that could not be queued is forgotten again and leaves only its sequence used and the error phase |
| `LifeMeaning.StoredResultForgets` | crates/client_bevy/src/core_private_life.rs:1104-1136 | A stored recall or extraction forgets the place and refreshes the route; a refused or unstored answer changes nothing modelled |
| `LifeMeaning.EitherOrderEnters` | crates/client_bevy/src/core_private_life.rs:998-1102 | A newly bound client ends in one and the same state whichever of place and projection arrives first: Hall or private route with control, or a terminal wait |
| `ConsumableRuns.RunSound` | crates/client_bevy/src/core_consumable.rs:37-187 | Stored projection and frame are always valid and of the expected content revision |
| `ConsumableRuns.BeginMeaning` | crates/client_bevy/src/core_consumable.rs:51-87 | An intent is sent exactly when nothing is pending and the held projection is of this actor, and names that projection's inventory version, this actor and lineage, the content revision and its own payload's hash |
| `ConsumableRuns.HeldExactly` | crates/client_bevy/src/core_consumable.rs:37-159 | On every run the held projection is exactly the last one observed or brought by a definitive answer, unless a lost link, a cancellation or a foreign route has forgotten it since |
| `ConsumableRuns.AcceptedVersionIsNext` | crates/client_bevy/src/core_consumable.rs:51-121 | After an accepted answer the next intent of the same actor is sent and names the answer's inventory version |
| `ConsumableRuns.RefusalsAreExact` | crates/client_bevy/src/core_consumable.rs:37-121 | Observing, beginning and answering are refused exactly for the listed reasons, and a refusal changes nothing |
| `ConsumableRuns.OnlyAcceptanceConsumes` | crates/client_bevy/src/core_consumable.rs:89-121 | Only an acceptance brings a projection and consumes an item; any other answer leaves the projection as it is |
| `ConsumableRuns.PendingStep` | crates/client_bevy/src/core_consumable.rs:89-159 | A call drops the pending frame exactly when it definitively answers it or leaves its actor behind, and never alters it |
| `ConsumableRuns.RetryIsExact` | crates/client_bevy/src/core_consumable.rs:127-129 | Every retry is the identical frame of one earlier send that nothing has ended since |
| `ConsumableRuns.OutstandingIsRetried` | crates/client_bevy/src/core_consumable.rs:89-129 | A sent frame stays the retry until a matching definitive result or a route change, through ServiceUnavailable and link loss |
| `ConsumableRuns.EveryUseIsAccounted` | crates/client_bevy/src/core_consumable.rs:51-159 | Over every run, sent frames are those definitively answered, those abandoned and at most the one pending |
| `Consumable.CoreConsumableClientModel.ObserveState` | crates/client_bevy/src/core_consumable.rs:37-49 | A projection is stored only when valid and of this actor and content |
| `Consumable.CoreConsumableClientModel.BeginUse` | crates/client_bevy/src/core_consumable.rs:51-87 | The in-place method makes exactly the begin transition |
| `Consumable.CoreConsumableClientModel.ResultArrived` | crates/client_bevy/src/core_consumable.rs:89-121 | The in-place method makes exactly the result transition; an acceptance stores the state it brings and a refusal changes nothing |
| `Consumable.CoreConsumableClientModel.LinkLost` | crates/client_bevy/src/core_consumable.rs:123-125 | Link loss forgets the projection and keeps the frame |
| `Consumable.CoreConsumableClientModel.Cancel` | crates/client_bevy/src/core_consumable.rs:131-134 | Cancelling forgets both |
| `Consumable.CoreConsumableClientModel.Retain` | crates/client_bevy/src/core_consumable.rs:136-159 | A route keeps the frame of its own actor and the projection that fits |
| `BargainRuns.StageStep` | crates/client_bevy/src/bargain_ui.rs:92-233 | Every call is exactly one move of the Idle, Reviewing, InFlight machine, and a frame is sent exactly on confirming a review, with its decision and the projection's offer, character and version |
| `BargainRuns.RefusalIsExplicit` | crates/client_bevy/src/bargain_ui.rs:155-181 | Only an enabled press of Refuse puts a refusal under review; cancelling never does |
| `BargainRuns.EveryFrameWasChosen` | crates/client_bevy/src/bargain_ui.rs:155-216 | Every frame of every run carries exactly the decision of an earlier enabled choice, with no effective cancel, character change, reset or resolved decision in between |
| `BargainRuns.FramesAreSeparated` | crates/client_bevy/src/bargain_ui.rs:115-153 | Between two frames a result, a view, a failure, a reselection or a reset intervenes |
| `BargainRuns.UndisturbedSelectionIsOffered` | crates/client_bevy/src/bargain_ui.rs:155-216 | If no projection arrived since the choice, the sent selection is an available cell of the very offer it names |
| `BargainRuns.SentDecisionIsOfferedExactly` | crates/client_bevy/src/bargain_ui.rs:115-216 | The decision a frame carries can be made of the offer the frame names if and only if the last result since the choice that replaced the projection, if any, still offers it |
| `BargainRuns.LaterViewKeepsTheSelection` | crates/client_bevy/src/bargain_ui.rs:125-216 | A view during review keeps the choice and replaces the offer; the frame is for an offer that cannot make it exactly when the view's offer is not open or lacks the cell |
| `BargainRuns.StaleSelectionIsSent` | crates/client_bevy/src/bargain_ui.rs:92-216 | From a new shrine: choosing a cell, a second view whose offer lacks it, and confirming send that cell's bargain under the second offer |
| `BargainRuns.ViewExactly` | crates/client_bevy/src/bargain_ui.rs:92-113 | A view is asked for exactly when another character is selected and a sequence is left; a failed request makes the same character ask again |
| `BargainRuns.ViewsAreFresh` | crates/client_bevy/src/bargain_ui.rs:92-113 | Between resets the views of a run carry strictly increasing sequences |
| `BargainRuns.ErrorExactly` | crates/client_bevy/src/bargain_ui.rs:115-181 | The error shown is the last one reported, until a projection, resolution, choice, cancel or other character clears it |
| `Bargain.BargainUiModel.RequestForSelected` | crates/client_bevy/src/bargain_ui.rs:92-113 | A new selection clears the shrine and asks for its view under a fresh sequence |
| `Bargain.BargainUiModel.ApplyView` | crates/client_bevy/src/bargain_ui.rs:125-136 | A view replaces the projection or records the error |
| `Bargain.BargainUiModel.ApplyDecision` | crates/client_bevy/src/bargain_ui.rs:138-153 | A resolving result clears the review; others keep it |
| `Bargain.BargainUiModel.Choose` | crates/client_bevy/src/bargain_ui.rs:155-173 | Only an available action changes the review |
| `Bargain.BargainUiModel.Cancel` | crates/client_bevy/src/bargain_ui.rs:176-181 | Cancelling works only when nothing is in flight |
| `Bargain.BargainUiModel.Confirm` | crates/client_bevy/src/bargain_ui.rs:183-216 | Confirming sends the review once, when the projection carries an offer |
| `ProbeRuns.StageStep` | crates/client_bevy/src/core_death_frame_probe.rs:816-951 | How each stage can be entered; stages only advance |
| `ProbeRuns.CaptureHistory` | crates/client_bevy/src/core_death_frame_probe.rs:835-941 | Awaiting capture implies, in this order, a ready frame, the expected focus, exactly one InspectTrace command, a not-ready frame and two consecutive ready frames, and no other live frame with a command; the three stamps held are those of the ready, the focused and the command frame |
| `ProbeRuns.CaptureAwaitedExactly` | crates/client_bevy/src/core_death_frame_probe.rs:816-952 | The capture is awaited after exactly the runs that follow the script: only unready frames, the first ready one, no focus, the first focus the expected one, no command, one InspectTrace, and later an unready frame with two ready ones next; nothing late, no capture before |
| `ProbeRuns.PressesExactly` | crates/client_bevy/src/core_death_frame_probe.rs:835-941 | Each press, release, request and exit is signalled by exactly its own event at its own stage |
| `ProbeRuns.FailedExactly` | crates/client_bevy/src/core_death_frame_probe.rs:816-1000 | A probe has failed exactly when some event of the run was late, carried a command not asked for, showed a focus not expected, or was a capture that does not complete it |
| `ProbeRuns.OneCaptureRequest` | crates/client_bevy/src/core_death_frame_probe.rs:933-939 | No run requests a second capture |
| `ProbeRuns.CompletionIsPublished` | crates/client_bevy/src/core_death_frame_probe.rs:972-996 | Completion comes only from a sound capture that arrives while one is awaited |
| `ProbeTiming.TimingAcceptedExactly` | crates/client_bevy/src/core_death_frame_probe.rs:357-370 | For ordered stamps the timing checks pass if and only if the remainders carry as many microseconds as there are segments shorter than one, or the total saturates |
| `ProbeTiming.WholeMicrosecondsAreAccepted` | crates/client_bevy/src/core_death_frame_probe.rs:357-370 | Segments of at least one microsecond always pass |
| `ProbeTiming.InstantSegmentIsRejected` | crates/client_bevy/src/core_death_frame_probe.rs:1117-1121 | The bound matters: one instantaneous segment among whole microseconds fails |
| `ProbeTiming.CaptureCompletes` | crates/client_bevy/src/core_death_frame_probe.rs:998-1065 | On a monotonic clock an awaited capture completes the probe exactly when size, payload, writes and focus are right and the segments pass the timing rule |
| `ProbeTiming.TimedMeaning` | crates/client_bevy/src/core_death_frame_probe.rs:1067-1075 | Each reported duration is the whole microseconds between its own two stamps, at least one, saturating |
| `ProbeTiming.ScriptedCaptureCompletes` | crates/client_bevy/src/core_death_frame_probe.rs:972-1065 | From the run alone: after a run that follows the script, a capture completes the probe exactly when the image is right and written and the times between the script's frames pass the rule |
| `DeathProbe.NativeDeathFrameProbeRuntime.DriveFrame` | crates/client_bevy/src/core_death_frame_probe.rs:805-952 | The in-place driver makes exactly the frame transition |
| `DeathProbe.NativeDeathFrameProbeRuntime.PublishCapture` | crates/client_bevy/src/core_death_frame_probe.rs:972-1065 | The in-place publisher makes exactly the capture transition |

## Left out

- PrivateLifeClient.CorePrivateLifeClient.SetAccount: the account is reduced to its roster's verdict and the selection, because nothing else reaches the phase or the route.
- PrivateLifeClient.CorePrivateLifeClient.ApplyTerminalResult: takes the verdict on a recall or extraction answer and whether it is stored; frames, receipts and inventory contents are not modelled.
- PrivateLifeClient.CorePrivateLifeClient.BeginTransfer: whether a fresh mutation identity could be drawn is an input, as is its value; the payload hash is not part of the request.
- DeathProbe.NativeDeathFrameProbeRuntime.PublishCapture: encoding, hashing and the two file renames are one verdict, and so are the report's fields that no stage determines.
- NativeAssembler.SnapshotAssembler.PushChunk: a refusal for a repeated entity does not name the entity.
- PrivateLifeClient.CorePrivateLifeClient.ApplyRoute: pending inventory, extraction readiness, frame and result, which it clears in safe scenes, are not modelled.
- PrivateLifeClient.CorePrivateLifeClient.TransportLost: the recall result, which it clears, is not modelled.
- BotObservation.DistanceExact: models the wrap-around of a release build; a build with overflow checks stops instead.
- RingGap.RingCountExactly: models the eight-bit wrap-around of a release build; validated rings never reach it.
- Text of content and stable identifiers: an identifier is a compiled scene's or some other text with its own well-formedness verdict.
- Server hello fields that no model reads, and reliable events other than those listed, which carry only their validation verdict.
- QUIC transport, codecs and framing: a run is any sequence of deliveries.
- The join, reconnect and action builders of the bot, and its command line.
- Death, successor, hold, safe-storage, oath and hall-interaction models behind the same transport poll.
- Rendering, HUD text, audio, aiming, floating-point geometry and window systems.
- Fixture parsing, asset hashing and atomic file publication of the evidence probe.
