# Socket transport, sync, streams, logs, progress, upload: a verified model

This project models the stateful parts of the library in Dafny and proves what they promise.

The main part is the JSON chunk transport in its reliable mode. `Text`, `Json` and `Split` model splitting a JSON
value into a manifest and chunks, and assembling it again; `Utf8Text` reads the UTF-8 form of strings back, and
`SplitChoice` says which strings are cut out. `Settlement` and `Deliveries` model the bounded memory of settled
transfers and what the exactly-once claim owes to it. `Packets`, `Receiving` and `Sending` model the two halves of an
endpoint as state machines, `Validation` and `Tidiness` what a receiver refuses and what it keeps, `Resending` and
`Asking` what the timers do; `Protocol`, `History` and `Runs` join two endpoints by a network that may lose, repeat,
reorder and damage packets, and prove theorems about every run; `Repairing` proves that a transfer completes in any
order of arrival, among the packets of others, and that nacks bring back exactly what is missing; `Lossless` builds,
for every value, a run in which its send resolves, and `Rounds`, for every loss that leaves something, a run in which
nacks alone bring the rest; `Transmitted` proves that nothing is delivered that was not transmitted in full;
`Witnesses` builds the runs that mark the limits of exactly-once. `Transport` and `JsonTransport` are the imperative
form: a class whose methods, with their loops, change its fields exactly as the events of the protocol prescribe, so
that the theorems about runs are about these methods.

The other parts are the model replica (`Sync`, `SyncSafety`), log tracing (`LogTrace`, `LogText`, `LogReporter`,
`LogConsumer`, `LogOrder`), stream buffering and its network form (`StreamBuffer`, `StreamNetwork`), progress
reporting (`ProgressReporter`, `ProgressConsumer`), the upload pool and its bar (`Upload`), and reconnecting
(`Reconnect`). `Ordered` is the JavaScript `Map` with its iteration order; `Outcomes` holds optional values and
results.

Check the whole project with `dafny verify dfyconfig.toml`.

How the code is read:

- An asynchronous method is a class method per uninterrupted stretch; the stretches may be called in any order, which
  stands for every interleaving. Timers are methods that may be called while the timer is set.
- The network is the set of everything ever put on it: any packet may arrive any number of times, in any order, or never;
  besides, a chunk whose hash does not match may arrive with any content, of a transfer of which data is on the network.
  A packet that the network refuses to send is one that never arrives.
- Each direction has its own pipe (as with `receiveNetwork`), so an endpoint does not hear itself. Transfer ids are unique
  per sender, chunk ids distinct within a transfer, clocks do not go back. Listeners and sinks do not throw or call back.
- JSON numbers are finite reals; arrays and objects are both lists of named fields, an array item being named by its index.
- Ghost fields (`sent`, `delivered`, `issued`, `given`, ...) record history for the statements; no behaviour depends on them.
- Every lemma switches automatic induction off: inductive proofs call themselves.

What turned out to hold only on a condition, and is proved with it:

- A transfer can be delivered twice: after a whole lifetime (`Witnesses.RepeatsAfterLifetime`), with more live deliveries
  than the cap (`Witnesses.RepeatsWhenCrowded`), or when its sender gave up and the failure that overwrote the success was
  evicted (`Witnesses.RepeatsAfterFailure`); in no run for any other reason (`Runs.DeliveredAtMostOnce`).
- A rejected send may have been delivered (`Witnesses.RejectedMayBeDelivered`), but not one that was never transmitted
  (`Transmitted.UntransmittedIsNotDelivered`).
- With `maxAttempts` of at most one no send ever resolves, since acknowledgements come after the attempt that was the last;
  with more, every value can be sent with success (`Lossless.WhenSendsCanResolve`), even if only part of the one
  transmission arrives (`Rounds.NacksMakeUpForLoss`).
- A value comes back from its chunks unless it is a bare string that is split (`Split.WhenRootIsPutBack`); `send` takes
  objects.
- Compaction is undone if and only if the chunks carry their lengths (`StreamNetwork.RestoreUndoesCompact`).
- The first delay is the capped exponential only if the base is at most the cap (`Reconnect.DelayIsCappedExponential`).
- A progress consumer always shows the greatest snapshot of a task while no more tasks than `maxTasks` have reported
  (`ProgressConsumer.FewTasksShowGreatest`); with more, exactly when no task can be evicted and come back with an older one
  (`ProgressConsumer.WhenNothingIsStale`).
- The order in which models are applied does not matter exactly when every tombstone whose id has a live model is outlived
  by one (`SyncSafety.WhenOrderDoesNotMatter`).
- Cutting a log message frees bytes except inside a surrogate pair near its end (`LogTrace.WhenCuttingGrows`).
- The byte count kept for a log entry is its size unless the entry was over budget with an empty message and no data
  (`LogReporter.LogTraceReporter.Truncate`, `LogReporter.NothingLeftToCut`).

Where documentation and code differ, the code is followed:

- The comments on eviction speak of the oldest expired entry first (src/socket/transport.ts:931-953). The code looks at the
  oldest entry and at the first failed one only: `Settlement.WhenExpiredGoFirst` says when that makes no difference, and
  `Settlement.FailureLeavesBeforeExpired` gives a history in which it does.
- The same comment calls the eviction of a valid success the only one after which a duplicate can be handed over again.
  `Witnesses.RepeatsAfterFailure` is a run in which evicting a failure does it.
- The comment on cutting log messages says that every removed character frees at least one byte
  (src/logtrace/logtrace.ts:232); see `LogTrace.WhenCuttingGrows`.

## Model

| member | source | states |
|---|---|---|
| Text.SplitStringByBytes | src/socket/transport.ts:1206-1227 | the loop gives exactly the greedy parts, or throws for a budget that is not positive or too small for a character |
| Text.SplittableMeans | src/socket/transport.ts:1206-1215 | splitting succeeds if and only if the budget is positive and the UTF-8 form of no character is longer than it |
| Text.ByteLengthIsUtf8Length | src/socket/transport.ts:1229 | the byte length of any string is the number of octets of its UTF-8 form (section 3 of RFC 3629), a lone surrogate becoming U+FFFD |
| Utf8Text.Utf8RoundTrip | src/socket/transport.ts:1229 | a strict decoder reads the octets back as the string with lone surrogates replaced, and as the string itself if and only if it is well-formed UTF-16 |
| Text.FittingIsLongest | src/socket/transport.ts:1216-1223 | a greedy piece is the longest prefix of code points within the budget |
| Text.PartsAreFaithful | src/socket/transport.ts:1206-1227 | the parts join to the input and their UTF-8 octets to its octets, each has at most chunkBytes octets, none cuts a code point, and there is at least one |
| Text.GreedyStaysAhead | src/socket/transport.ts:1213-1223 | on any suffix of the text the greedy split needs no more pieces than any other split needs for the whole text |
| Text.PartsAreFewest | src/socket/transport.ts:1206-1227 | no other split of the code points into pieces within the budget has fewer pieces |
| Json.EscapeRoundTrip | src/socket/transport.ts:1274-1275 | unescaping undoes escaping (section 4 of RFC 6901), and an escaped name contains no slash |
| Json.EscapeByUnit | src/socket/transport.ts:1274 | escaping goes unit by unit: ~ becomes ~0, / becomes ~1, and nothing else changes |
| Json.DecimalRoundTrip | src/socket/transport.ts:1170-1172 | array indices written in decimal are told apart |
| Json.NamesAreDistinct | src/socket/transport.ts:1170-1181 | the fields of an array or object have distinct names, so a pointer leads to one place |
| Json.FieldPathSegments | src/socket/transport.ts:1170-1181 | the pointer built for a field spells the walk to it, whatever slashes or tildes its name contains |
| SplitChoice.PointerRoundTrip | src/socket/transport.ts:1262-1275 | the pointer that spells a walk is read as this walk |
| SplitChoice.FieldPointer | src/socket/transport.ts:1170-1181 | the pointer built for a field is the one that spells the walk to it |
| SplitChoice.WhatIsCut | src/socket/transport.ts:1150-1204 | a string is cut out if and only if it is larger than largeValueBytes, or larger than the lesser limit where a preferred pattern matches its walk segment by segment, or the custom rule wants it; sizes are those of its UTF-8 form |
| SplitChoice.OnlyStringsAreCut | src/socket/transport.ts:1157-1168 | every reference points to a string of the value and gives the size of its UTF-8 form |
| SplitChoice.NothingLargeIsLeft | src/socket/transport.ts:1186-1193 | no string larger than largeValueBytes stays in the manifest |
| Split.CutsAreCuttable | src/socket/transport.ts:1157-1168 | only strings the byte splitter accepts are cut, and the cuts use the chunk ids in order, each once |
| Split.PathsSpellWalks | src/socket/transport.ts:1162-1181 | the pointer recorded for a cut names the place it was cut from |
| Split.PatchUndoesSplit | src/socket/transport.ts:1150-1184 | putting the cut texts back where they point gives the original tree, and every cut left its own marker behind |
| Split.AssembleUndoesSplit | src/socket/transport.ts:368-447 | for every JSON object or array and every split decision, assembling all chunks gives the value back |
| Split.NothingAssembledBeforeTheLastChunk | src/socket/transport.ts:426-438 | while a chunk of the value is missing, nothing is assembled |
| Split.SplitRootStringCannotBeAssembled | src/socket/transport.ts:1242-1246 | a bare string that is itself split cannot be put back: setting at the empty pointer throws |
| Split.WhenRootIsPutBack | src/socket/transport.ts:1242-1246 | the value comes back from all its chunks if and only if it is not a string that is split |
| Split.SplitIsGenuine | src/socket/transport.ts:368-447 | a split value passes manifest and size validation, and a buffer of its chunks assembles to it exactly when complete |
| Ordered.WithoutFacts | src/socket/transport.ts:925-929 | deleting a key from a Map keeps the iteration order of the others |
| Settlement.SweepTtlFacts | src/socket/transport.ts:925-929 | the sweep by age removes exactly the expired entries |
| Settlement.VictimIsLeast | src/socket/transport.ts:953-961 | a success that is still valid is chosen for eviction only from a map of nothing else, and then it expires first |
| Settlement.WhenExpiredGoFirst | src/socket/transport.ts:931-961 | an expired entry is evicted first if and only if none has expired, or the oldest entry has, or the first failed one has |
| Settlement.FailureLeavesBeforeExpired | src/socket/transport.ts:931-961 | three successes and an error, settled one after another: a failure that is still valid is evicted and an expired success stays |
| Settlement.EvictionFacts | src/socket/transport.ts:936-951 | eviction brings the map within the cap and removes entries only for cause |
| Settlement.SettleFacts | src/socket/transport.ts:906-961 | after each settle the map is within the cap, and a still-valid success was evicted only if every entry was one and it had the least expiry |
| Deliveries.ValidAreLive | src/socket/transport.ts:912-916 | successes still valid in memory are transfers delivered within one lifetime |
| Deliveries.ConsistentDrop | src/socket/transport.ts:925-951 | entries dropped by age or size leave every delivery remembered or forgotten for a reason |
| Deliveries.ConsistentSettleFail | src/socket/transport.ts:643-650 | settling as failed keeps that account, also when it overwrites an entry the sender gave up on |
| Deliveries.ConsistentSettleOk | src/socket/transport.ts:664-679 | delivering what is not remembered, and settling it, keeps that account |
| Packets.TransmissionBelongs | src/socket/transport.ts:769-772 | a full transmission consists of exactly the data packets of the value |
| Validation.WhenChunkIsKept | src/socket/transport.ts:698-723 | for any partial transfer, a chunk is filed in its place if and only if it is intact, the place is empty, and the manifest, if held, announces its total for its id; nothing else changes |
| Validation.WhenManifestIsKept | src/socket/transport.ts:682-696 | a manifest is kept if and only if none is held and its references have ids of their own and lead to their markers; processing goes on only if it announces every chunk that came before |
| Validation.SettingIsSeen | src/socket/transport.ts:1242-1260 | putting a text back succeeds if and only if there is an object or array to set it in; it then stands at the end of the pointer, and everything off the pointer is as it was |
| Validation.WhatComesOut | src/socket/transport.ts:660-663 | whatever has arrived, honest or not, a value comes out if and only if manifest and completion are there, every text has the size its reference gives, and assembly succeeds with a value that does not count as nothing |
| ReceiverSafety.CleanupIsSafe | src/socket/transport.ts:561-584 | cleaning up only drops partial transfers, settling each it drops as failed, and keeps the receiver safe |
| ReceiverSafety.TouchIsSafe | src/socket/transport.ts:1062-1071 | looking up a partial transfer may first expire and fail it; it then starts again from nothing |
| ReceiverSafety.AcceptKeepsUnit | src/socket/transport.ts:682-723 | accepting genuine packets keeps a partial transfer genuine, and genuine manifests and chunks are never refused |
| ReceiverSafety.YieldIsExact | src/socket/transport.ts:660-663 | a partial transfer of genuine packets yields its value exactly when nothing is missing |
| ReceiverSafety.TakeInIsSafe | src/socket/transport.ts:657-663 | what a packet completes is the value sent, and its transfer has not been settled on the way |
| ReceiverSafety.ReceiveIsSafe | src/socket/transport.ts:636-680 | whatever arrives, only sent values are delivered, only while not remembered as settled, and acknowledgements follow deliveries |
| ReceiverSafety.SettledIsQuiet | src/socket/transport.ts:652-655 | a remembered settled transfer is not delivered again; a failed one is not acknowledged and does not become a success |
| Tidiness.CleanupDropsTheOld | src/socket/transport.ts:561-584 | cleaning up drops exactly the partial transfers without a packet for more than partialTtlMs, with their timers, and none if that is not positive |
| Tidiness.TakingInCleansUp | src/socket/transport.ts:1062-1071 | a packet is added to what is kept of its transfer unless that is too old; of the others exactly those not too old are left |
| Tidiness.CleanUpForgets | src/socket/transport.ts:561-562 | of both memories of settled transfers exactly what has not expired is left, besides the failures of expired partial transfers |
| Tidiness.RunIsTidy | src/socket/transport.ts:657-680 | in every run, a partial transfer that is kept lacks something: with the last packet it is delivered and dropped |
| Asking.DataArmsTimer | src/socket/transport.ts:657-659 | after a data packet of an unsettled transfer, either it has been delivered and nothing waits for it, or it is kept with its nack timer set |
| Asking.TimerAsks | src/socket/transport.ts:868-882 | when the timer of a waiting transfer fires, its nack is put on the network and the timer is off; nothing else changes |
| Asking.IdleTimer | src/socket/transport.ts:868-871 | a timer that is not set, or whose transfer is gone, says nothing |
| Asking.SettledIsAcknowledgedAgain | src/socket/transport.ts:652-655 | a data packet of a remembered transfer is answered with an acknowledgement if it was delivered, and changes nothing else |
| Asking.DetachedIsDeaf | src/socket/transport.ts:549-559 | a detached endpoint has nothing pending, partial or timed, and no packet changes it |
| Sending.PendingIsNotSettled | src/socket/transport.ts:748-751 | a transfer is never both pending and settled |
| Sending.ConcludeKeepsOrder | src/socket/transport.ts:794-802 | ending a send keeps every send pending or ended exactly once |
| Sending.AttemptKeepsOrder | src/socket/transport.ts:758-786 | an attempt does nothing on a closed network, fails past the deadline or after the last attempt, and touches no other send |
| Sending.TriesCountTransmissions | src/socket/transport.ts:758-786 | each counted try is one full transmission on an open network, and no data is sent without one |
| Resending.ResendTransmits | src/socket/transport.ts:758-792 | a resend tick on an open network before the deadline puts every packet of the transmission on the wire and counts one try more; the send then goes on, or fails if that was the last attempt |
| Resending.IdleResend | src/socket/transport.ts:758-792 | on a closed network before the deadline, or when nothing is pending, a resend tick changes nothing |
| Resending.SendTransmits | src/socket/transport.ts:726-786 | sending puts everything on an open network as the first try, and waits on a closed one |
| Tidiness.EndedSendIsRemembered | src/socket/transport.ts:906-923 | a send that ends is remembered with its outcome for one lifetime, while there is room |
| Sending.DeadlineEndsSend | src/socket/transport.ts:758-767 | a resend tick at or past the deadline fails the send, whether or not the network is open |
| Sending.AckKeepsOrder | src/socket/transport.ts:794-802 | an acknowledgement resolves exactly the send it names, if that is still pending |
| Sending.DetachKeepsOrder | src/socket/transport.ts:964-975 | detaching fails every pending send, each once, and resolves none |
| Sending.NackSpeaks | src/socket/transport.ts:804-824 | answers to nacks contain only packets of the value asked about |
| Protocol.SenderStepIsGood | src/socket/transport.ts:726-838 | any step of the sending half keeps both endpoints linked |
| Protocol.ReceiverStepIsGood | src/socket/transport.ts:636-680 | any step of the receiving half keeps both endpoints linked |
| Protocol.DetachIsGood | src/socket/transport.ts:549-559 | detaching keeps both endpoints linked |
| Protocol.NextIsGood | src/socket/transport.ts:586-980 | every event at one endpoint keeps both endpoints linked: honest wires, safe receivers, orderly senders |
| History.NextCarries | src/socket/transport.ts:586-980 | no event undoes what was sent, concluded or delivered, or stirs a transfer remembered as settled |
| Runs.RunIsGood | src/socket/transport.ts:586-980 | every state of every run over a network that loses, repeats, reorders and damages packets is good |
| Runs.AcknowledgedMeansDelivered | src/socket/transport.ts:841-851 | every acknowledgement that was ever on the wire follows the delivery of the value sent |
| Runs.Agreement | src/socket/transport.ts:794-802 | a send that resolved has been delivered by the other side, with its value |
| Runs.ResolvedMeansDelivered | src/socket/transport.ts:726-802 | when the promise of a send has resolved, the other side has delivered the very value given to it |
| Runs.HistoryStands | src/socket/transport.ts:586-980 | along a run, nothing sent, concluded, put on the wire or delivered is ever undone |
| Runs.RememberedMeansQuiet | src/socket/transport.ts:652-655 | as long as a settled transfer is remembered it is not delivered again; a failed one is neither delivered nor acknowledged |
| Runs.DeliveredAtMostOnce | src/socket/transport.ts:906-961 | a transfer is delivered twice only a whole lifetime apart, or with more live deliveries than the cap between, or when its sender gave up and the failure this left in memory was evicted over the cap between |
| Witnesses.RepeatsAfterLifetime | src/socket/transport.ts:925-929 | for every value, a run that delivers it again exactly one lifetime later, with room in memory and no send given up |
| Witnesses.RepeatsWhenCrowded | src/socket/transport.ts:936-961 | for every value and cap, a run that delivers a transfer again at the same time, after as many others as the memory has room for |
| Witnesses.RepeatsAfterFailure | src/socket/transport.ts:643-650 | for every value and cap, a run that delivers a transfer again at the same time, after its failure was evicted by other failures; nothing else is delivered |
| Runs.SendEndsOnce | src/socket/transport.ts:794-838 | a send that has ended stays ended, one way only, and is not pending |
| Runs.SendIsBounded | src/socket/transport.ts:758-786 | every send is pending or ended, never pending and settled, and is transmitted in full at most max(1, maxAttempts) times |
| Runs.DeadlineHolds | src/socket/transport.ts:762-765 | in a run, a resend tick at or past the deadline ends the send |
| Witnesses.RejectedMayBeDelivered | src/socket/transport.ts:758-767 | for every value, a run in which it is delivered and its send is rejected at the deadline |
| Transmitted.DeliveredWasTransmitted | src/socket/transport.ts:769-785 | in every run, what was delivered had been put on the network as a whole by a counted attempt |
| Transmitted.UntransmittedIsNotDelivered | src/socket/transport.ts:758-786 | in every run, a send of which no data was ever put on the network has not been delivered |
| Transmitted.OneAttemptNeverResolves | src/socket/transport.ts:776-785 | in every run, with at most one attempt allowed no send ever resolves |
| Lossless.LosslessSendResolves | src/socket/transport.ts:726-851 | for every value, from fresh endpoints, a run in which nothing is lost: the network need only be open at some time, and the send resolves and the value is delivered once |
| Lossless.WhenSendsCanResolve | src/socket/transport.ts:776-785 | sending between fresh endpoints, on a network open or closed, can resolve at all if and only if more than one attempt is allowed |
| Repairing.CoversMeansWhole | src/socket/transport.ts:422-438 | a partial transfer is whole exactly when every packet of the transmission has been seen |
| Repairing.PacketArrives | src/socket/transport.ts:657-680 | a packet of a transfer in progress delivers and acknowledges it exactly when it was the last one missing |
| Repairing.FeedInAnyOrder | src/socket/transport.ts:636-680 | packets of one transfer in any order, repeated and with damaged copies, among any packets of other transfers, none expiring: delivered at the very packet that completes it, not before |
| Repairing.OthersLeaveAlone | src/socket/transport.ts:636-680 | a packet of another transfer, whatever it delivers, settles or evicts, leaves a transfer in progress as it was |
| Repairing.FeedAlone | src/socket/transport.ts:652-655 | a receiver that hears of nothing else delivers once, and further packets of the transfer change nothing |
| Repairing.MissingOfAre | src/socket/transport.ts:892-901 | a nack names every missing chunk index of every reference, and nothing else |
| Repairing.NackBringsExactlyWhatIsMissing | src/socket/transport.ts:804-904 | with the manifest held, the answer to a nack is exactly the packets the receiver lacks |
| Repairing.OneRoundSuffices | src/socket/transport.ts:804-904 | with the manifest held, one lossless round of nack and answer delivers the transfer |
| Repairing.TwoRoundsSuffice | src/socket/transport.ts:885-890 | without the manifest, at most two lossless rounds deliver it |
| Rounds.OneRoundDelivers | src/socket/transport.ts:804-904 | as a run, through the nack timer, the nack at the sender and its answer at the receiver: with the manifest held, one round delivers the transfer |
| Rounds.TwoRoundsDeliver | src/socket/transport.ts:804-904 | as a run: whatever is held of a waiting transfer, at most two rounds deliver it |
| Rounds.NacksMakeUpForLoss | src/socket/transport.ts:804-904 | for every value sent once: if any packets of the transmission at all arrive, in any order, a run without a single resend delivers it once and resolves its send |
| Transport.SweepSettledMapTtl | src/socket/transport.ts:925-929 | the loop is the sweep by age |
| Transport.PickSettledEvictionVictim | src/socket/transport.ts:953-961 | the loop finds the victim: oldest if expired, else oldest failure, else oldest |
| Transport.SweepSettledMapSize | src/socket/transport.ts:936-951 | the loop is the eviction down to the cap |
| Transport.ValidateManifest | src/socket/transport.ts:982-1004 | true exactly when chunk ids are distinct and every pointer leads to its own marker |
| Transport.ValidateBufferedChunks | src/socket/transport.ts:1006-1015 | true exactly when every buffered chunk has a reference with its total |
| Transport.ValidateChunkForManifest | src/socket/transport.ts:1017-1034 | true exactly when the first reference with this id has the total of the chunk |
| Transport.ValidateCompletedChunkSizes | src/socket/transport.ts:1036-1060 | the size check, including its early success at a reference with a gap |
| Transport.GetByJsonPointer | src/socket/transport.ts:1262-1272 | the cursor loop reads the value at the end of a JSON pointer, or nothing |
| Transport.CollectTexts | src/socket/transport.ts:426-438 | the texts of all references, or none when a chunk is missing |
| Transport.PutTextsBack | src/socket/transport.ts:440-444 | the texts are set in order of the references, and a throw stops the assembly |
| Transport.AssembleJson | src/socket/transport.ts:422-447 | the loops of assembly compute the assembled value of the specification |
| Transport.AcceptChunkPacket | src/socket/transport.ts:698-723 | a chunk is dropped when damaged, unknown or repeated, else buffered |
| Transport.AcceptManifest | src/socket/transport.ts:682-696 | the first valid manifest is kept; buffered chunks are then checked against it |
| Transport.TryAssemble | src/socket/transport.ts:660-663 | size check, completeness and assembly give what the partial transfer yields |
| Transport.BuildNackPacket | src/socket/transport.ts:885-904 | the loops build the nack of the specification |
| Transport.CollectRepair | src/socket/transport.ts:804-816 | the loops collect the answer to a nack |
| JsonTransport.JSONTransport.constructor | src/socket/transport.ts:465-487 | a new transport is a fresh endpoint |
| JsonTransport.JSONTransport.SettleReceived | src/socket/transport.ts:912-916 | settles in the memory of received transfers |
| JsonTransport.JSONTransport.SettleSend | src/socket/transport.ts:794-802 | removes the pending send, remembers how it ended, and settles its promise |
| JsonTransport.JSONTransport.Cleanup | src/socket/transport.ts:561-584 | sweeps both memories, then expires partial transfers in order |
| JsonTransport.JSONTransport.TakeIn | src/socket/transport.ts:657-663 | finds or creates the partial transfer, arms its nack timer, takes the packet in, and tries to assemble |
| JsonTransport.JSONTransport.Deliver | src/socket/transport.ts:664-679 | hands the value over, forgets the partial transfer, and settles it |
| JsonTransport.JSONTransport.AttemptSend | src/socket/transport.ts:758-786 | one attempt, in state and on the wire |
| JsonTransport.JSONTransport.SendReliable | src/socket/transport.ts:726-755 | the event of sending a value |
| JsonTransport.JSONTransport.ResendTick | src/socket/transport.ts:788-792 | the event of a resend timer |
| JsonTransport.JSONTransport.AcceptPacket | src/socket/transport.ts:586-680 | the event of an arriving packet, of whatever kind |
| JsonTransport.JSONTransport.FireNack | src/socket/transport.ts:868-882 | the event of a nack timer |
| JsonTransport.JSONTransport.CleanupTick | src/socket/transport.ts:1102-1106 | the event of the clean-up timer |
| JsonTransport.JSONTransport.Detach | src/socket/transport.ts:549-559 | the event of detaching |
| Sync.ModelSyncHandle.ApplyOne | src/sync/machine.ts:164-180 | the freshness rule for one incoming model, on the store |
| Sync.ModelSyncHandle.ApplyModels | src/sync/machine.ts:156-162 | the rule for a list, and which models were applied |
| Sync.ModelSyncHandle.BeginPull | src/sync/machine.ts:99-107 | a pull starts from the watermark unless one is in flight or the handle is closed |
| Sync.ModelSyncHandle.ReceivePage | src/sync/machine.ts:136-150 | a page is applied, then the watermark rises to the applied versions only |
| Sync.ModelSyncHandle.ApplyEvent | src/sync/machine.ts:124-130 | an event is applied without moving the watermark |
| SyncSafety.ApplyAllKeeps | src/sync/machine.ts:156-180 | genuine models, however stale, never push a current model out, and bring in those that are current |
| SyncSafety.AppliedMeansChanged | src/sync/machine.ts:164-180 | a model counts as applied if and only if the store after it differs from the store before |
| SyncSafety.AppliedAreTheChanging | src/sync/machine.ts:156-162 | the list of applied models consists of exactly those at whose turn the store changed, in order |
| SyncSafety.WatermarkFollowsChanges | src/sync/machine.ts:143-147 | after a page the watermark is the highest of the old one and the versions of the models that changed the store |
| SyncSafety.PageKeeps | src/sync/machine.ts:136-150 | a page keeps the invariant: its records are in the store, and the watermark has not passed them |
| SyncSafety.NextKeeps | src/sync/machine.ts:124-153 | server changes, events, pulls, pages and failures keep the invariant |
| SyncSafety.NoUpdateIsMissed | src/sync/machine.ts:132-153 | in every run, every live server model with a version up to the watermark is in the store as the server holds it |
| SyncSafety.CompletedPullCatchesUp | src/sync/machine.ts:132-153 | after the last page, everything live that has not changed since the snapshot is in the store |
| SyncSafety.WhenOrderDoesNotMatter | src/sync/machine.ts:156-180 | for dated models, every order of application with any repetitions gives the same store if and only if every tombstone whose id has a live model has a later live one |
| SyncSafety.OrderDoesNotMatter | src/sync/machine.ts:156-180 | in particular without tombstones |
| SyncSafety.TombstonesBreakOrder | src/sync/machine.ts:176-177 | and not for a model and any later tombstone of its id |
| LogTrace.FromIsByWeight | src/logtrace/logtrace.ts:114 | the levels admitted by a minimum are itself and the more severe ones: debug, info, warn, error |
| LogText.StringRoundTrip | src/logtrace/logtrace.ts:165 | the JSON text of any string, escapes included, reads back as the string |
| LogText.EntrySize | src/logtrace/logtrace.ts:165 | the size of an entry is the number of UTF-8 octets of its JSON text |
| LogText.BatchSize | src/logtrace/logtrace.ts:166-170 | the size of a batch is the number of UTF-8 octets of its JSON text |
| LogTrace.WhenCuttingGrows | src/logtrace/logtrace.ts:232-236 | cutting a message makes its JSON text longer if and only if the cut splits a surrogate pair with less than two bytes behind it |
| LogReporter.LogTraceReporter.Truncate | src/logtrace/logtrace.ts:224-238 | terminates by message length, drops the data first, leaves the entry within budget or its message empty, cuts no more than it must, and returns its size if and only if there was data or a message to cut (or the mark was there) |
| LogReporter.NothingLeftToCut | src/logtrace/logtrace.ts:224-238 | an entry with an empty message and no data has a positive size, which the mark increases |
| LogReporter.LogTraceReporter.Log | src/logtrace/logtrace.ts:159-176 | an accepted entry gets the next number and is appended, cut only when over budget, and nothing stays buffered if and only if it was an error, its batch is full or is the very first; others change nothing |
| LogReporter.LogTraceReporter.Flush | src/logtrace/logtrace.ts:195-215 | the buffer becomes one batch within the byte budget |
| LogReporter.LogTraceReporter.Close | src/logtrace/logtrace.ts:218-221 | after closing, the batches hold everything accepted, in order |
| LogReporter.NumberedAt | src/logtrace/logtrace.ts:163 | accepted entries carry the numbers from 1 on without gaps |
| LogReporter.OneMoreBuffered | src/logtrace/logtrace.ts:168-170 | an entry that passes the room check keeps the buffer within one batch |
| LogReporter.BatchFits | src/logtrace/logtrace.ts:165-170 | a batch is at most maxBatchBytes + 2 bytes, unless it is one entry with an empty message |
| LogConsumer.SortIsSorted | src/logtrace/logtrace.ts:341-350 | the reference order: sorted, with the same entries |
| LogConsumer.InsertThenCut | src/logtrace/logtrace.ts:341-350 | inserting into the retained tail and dropping the oldest equals sorting everything and keeping the last maxEntries |
| LogConsumer.LossIsExact | src/logtrace/logtrace.ts:298-303 | maximum minus received count is the number of sequence numbers never received |
| LogConsumer.LogTraceConsumer.Store | src/logtrace/logtrace.ts:341-350 | binary insertion and eviction on overflow |
| LogConsumer.LogTraceConsumer.ReceiveEntry | src/logtrace/logtrace.ts:326-337 | malformed and repeated entries change nothing; others count as received, and are retained from the minimum level on |
| LogConsumer.LogTraceConsumer.Receive | src/logtrace/logtrace.ts:316-338 | a batch is taken entry by entry |
| LogConsumer.LogTraceConsumer.GapCount | src/logtrace/logtrace.ts:298-303 | the loop counts exactly the numbers never received, over all sources |
| LogConsumer.LogTraceConsumer.List | src/logtrace/logtrace.ts:290-296 | the retained entries by level, sorted, or the last of them |
| LogConsumer.LogTraceConsumer.Clear | src/logtrace/logtrace.ts:306-308 | drops what is retained, not what counts as received |
| LogOrder.TakeAllAcceptsEachOnce | src/logtrace/logtrace.ts:326-337 | what is accepted is every wanted entry, once |
| LogOrder.ArrivalOrderDoesNotMatter | src/logtrace/logtrace.ts:316-351 | in any order of arrival with repetitions the list shows the same keys and the same numbers count as received |
| StreamBuffer.FlushesAddUp | src/buffer/stream.ts:326-348 | data, characters and bytes reported by flushes are those of their chunks |
| StreamBuffer.NormalizedMeans | src/buffer/stream.ts:427-439 | what is stored of a chunk has its data, and the sizes given or else those of the data |
| StreamBuffer.GenAIStreamBuffer.Write | src/buffer/stream.ts:295-304 | a chunk is normalized and queued in order, unless the buffer is closed; then it is flushed or scheduled as the strategy says |
| StreamBuffer.GenAIStreamBuffer.AfterEnqueue | src/buffer/stream.ts:410-415 | flushes when the strategy says so and no flush is out, else schedules |
| StreamBuffer.GenAIStreamBuffer.Flush | src/buffer/stream.ts:319-347 | hands the whole queue over in one call, unless one is out |
| StreamBuffer.GenAIStreamBuffer.FlushSettles | src/buffer/stream.ts:348-357 | only then may the next call start, with what was queued meanwhile |
| StreamBuffer.GenAIStreamBuffer.TimerFires | src/buffer/stream.ts:554-560 | the timer flushes unless a call is out |
| StreamBuffer.GenAIStreamBuffer.Snapshot | src/buffer/stream.ts:381-394 | at every moment issued data then queued data is the written data, and loaded is flushed plus pending |
| StreamNetwork.CanCompactFlushEvent | src/buffer/network.ts:227-235 | the loop decides whether the chunks lie contiguously in the data |
| StreamNetwork.RestoreStreamEvent | src/buffer/network.ts:208-221 | the loop cuts the chunk data out again |
| StreamNetwork.SubstringMeans | src/buffer/network.ts:216 | what substring gives for bounds in any order and out of range |
| StreamNetwork.WhenHonestIsCompacted | src/buffer/network.ts:188-204 | a flush whose chunks carry no wrong lengths is compacted if and only if its data is theirs; only the data of the chunks is left out |
| StreamNetwork.RestoreUndoesCompact | src/buffer/network.ts:188-235 | restoring undoes compacting if and only if the event was not compacted or every non-empty chunk carries its length |
| StreamNetwork.BufferedFlushSurvives | src/buffer/stream.ts:427-439 | in particular for flushes of the buffer, whose chunks are normalized |
| StreamNetwork.StreamReceiver.Accept | src/buffer/network.ts:149-169 | whatever the order and repetitions, the delivered events are the longest prefix of the sent ones that has arrived, each once |
| ProgressReporter.Reporter.Emit | src/progress/progress.ts:196-218 | sends one snapshot with the next sequence number that agrees with the local state, gaps filled by the gauge and only oversized meta left out; never after a terminal one |
| ProgressReporter.Reporter.Start | src/progress/progress.ts:255-297 | a new task is sent at once; an existing one is left alone |
| ProgressReporter.Reporter.Update | src/progress/progress.ts:272-286 | every field the patch gives is what the state then says; it is sent now or left to the open window |
| ProgressReporter.Reporter.WindowEnds | src/progress/progress.ts:221-228 | a window in which something changed sends one snapshot that agrees with the local state and opens the next; one in which nothing did sends nothing and closes |
| ProgressReporter.Reporter.Finish | src/progress/progress.ts:236-243 | one terminal snapshot is sent, once, and agrees with the local state patched with status, error, caption and meta |
| ProgressReporter.Reporter.Heartbeat | src/progress/progress.ts:245-253 | exactly the running tasks are sent again, each once, in order, as they stand |
| ProgressReporter.Reporter.Close | src/progress/progress.ts:298-304 | each task with something unsent is sent once, in order, and nothing else; afterwards the last snapshot of every unfinished task agrees with its local state |
| ProgressReporter.WhoIsSentAgain | src/progress/progress.ts:245-253 | a heartbeat is about the unfinished tasks whose status is running and no others, closing about the tasks with something unsent and no others |
| ProgressReporter.SentInOrder | src/progress/progress.ts:245-253 | both send in the order in which the tasks were started, each once |
| ProgressReporter.OneMoreSnapshot | src/progress/progress.ts:236-243 | a terminal snapshot stays the last one of its task |
| ProgressConsumer.ConsumeIsBounded | src/progress/progress.ts:321-354 | at most maxTasks tasks, and what arrives is shown unless it is stale |
| ProgressConsumer.NewcomerDrivesOut | src/progress/progress.ts:321-340 | a newcomer to a full store takes the place of the oldest task that has ended, or of the oldest one when none has; the others stay in their order |
| ProgressConsumer.KnownTaskStays | src/progress/progress.ts:341-354 | a snapshot of a known task changes what is shown of it if and only if it is newer, and nothing else |
| ProgressConsumer.FewTasksShowGreatest | src/progress/progress.ts:321-354 | as long as no more tasks than maxTasks have reported, each of them is shown with its greatest snapshot, in any order of arrival with any repetitions |
| ProgressConsumer.WhenNothingIsStale | src/progress/progress.ts:321-354 | whatever of a set of snapshots arrives, nothing is ever shown stale, if and only if no task has one snapshot it can be evicted with and an older one |
| ProgressConsumer.RetainedIsGreatest | src/progress/progress.ts:341-354 | with any number of tasks and in any order of arrival, a task shows the greatest snapshot since it was last taken in |
| ProgressConsumer.EvictedMayComeBackOlder | src/progress/progress.ts:321-340 | any task driven out by maxTasks others comes back with whatever older snapshot arrives next |
| ProgressConsumer.Consumer.Receive | src/progress/progress.ts:341-362 | the handler applies, evicts and says what it did |
| Upload.Pool.constructor | src/upload/engine/engine.ts:75-87 | at least one worker, no more than limit or count beyond that, and as many as one of them allows; each starts on the next index |
| Upload.Pool.TaskSettles | src/upload/engine/engine.ts:78-84 | a result takes its place by index and the worker goes on; every index is started once, in order |
| Upload.FewAreBusy | src/upload/engine/engine.ts:86-87 | never more tasks in flight than workers |
| Upload.Pool.Results | src/upload/engine/engine.ts:75-88 | when every worker rests, every task was started once and its result stands at its index |
| Upload.GrowingCountsMore | src/upload/engine/progress.ts:74-80 | files that each count for more make the bar rise |
| Upload.SentIsWithinTotal | src/upload/engine/progress.ts:74-80 | the bar is never beyond its end, and at its end when every file is settled |
| Upload.OneFileCounts | src/upload/engine/progress.ts:74-76 | the sum changes by what the changed file counts for |
| Upload.ProgressTracker.Report | src/upload/engine/progress.ts:56-65 | a report is clamped between what was reported and the total, and the sum rises by exactly the difference |
| Upload.ProgressTracker.Settle | src/upload/engine/progress.ts:67-72 | settling counts the whole file, once |
| Upload.ProgressTracker.SettleAll | src/upload/engine/engine.ts:128-129 | after the pool, the bar is full |
| Upload.ProgressTracker.Snapshot | src/upload/engine/progress.ts:74-80 | sent bytes within the total; the ratio times the total is the sent bytes, or counts settled files when there are no bytes |
| Reconnect.CapOnce | src/socket/decorators.ts:252 | capping the delay at every step or once at the end is the same |
| Reconnect.DelayIsCappedExponential | src/socket/decorators.ts:249-257 | after k failures the delay is min(base * factor^k, max), for k = 0 if and only if base is at most max |
| Reconnect.ReconnectingNetwork.BeginBackoff | src/socket/decorators.ts:202-206 | backoff with exactly one live timer |
| Reconnect.ReconnectingNetwork.FailAttempt | src/socket/decorators.ts:249-257 | the delay grows, the attempt counts, one timer is live |
| Reconnect.ReconnectingNetwork.SettleReconnected | src/socket/decorators.ts:259-268 | only an open resets delay and budget; generations count the opens |
| Reconnect.ReconnectingNetwork.AttemptReconnect | src/socket/decorators.ts:208-246 | at most maxRetries factory calls between two opens, then closed for good |
| Reconnect.ReconnectingNetwork.OnInnerDeath | src/socket/decorators.ts:179-187 | a death matters only while connected or connecting |
| Reconnect.ReconnectingNetwork.Watch | src/socket/decorators.ts:189-200 | the watchdog finds deaths and opens that were not notified |
| Reconnect.ReconnectingNetwork.Close | src/socket/decorators.ts:142-152 | closed for good, with no timer left |

## Left out

- The transport without reliable mode, `configure` of the expiry options at run time, and the size summary.
- The value of the hash: a chunk is intact or damaged.
- The debounce and resend intervals: a set nack timer or a pending resend may fire at any time.
- A network or listener that calls back during a send; acknowledgements are separate events.
- Setting by JSON pointer changes nodes in place: the model rebuilds the path, so aliasing within a tree is not captured.
- Partial transfers are objects that are changed in place: the class stores their values in its map.
- The key `__proto__`, `undefined`, numbers that are not finite, and negative zero.
- Error texts, logging, counters returned for display, and error events except where they decide what happens next.
- JSON text of packets: parsing and printing them is taken as the identity; text that is not a packet is ignored. Of log entries the text is modelled for its size.
- Several model types on one sync machine, the ticker and the client: each type has its own handle.
- Start, progress and timeout events of the stream buffer, and its percentages.
- Gauges of progress tasks: a measurement is an argument of the emitting method.
- Requests to the upload service, executors and failure codes.
- `close` of the stream buffer while a flush is out marks the buffer closed early: modelled, and nothing is claimed about the order of its last event.
- Message and error forwarding of the reconnecting network; timestamps are arguments.
- LogReporter.LogTraceReporter.Log: nothing is said about when the timer fires, only that it is set while something waits.
