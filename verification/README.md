# Knode: a verified model of the node process

Knode accepts connections, relays them over KLESS, pulls its users from a control plane (Kboard) and ships
access logs to it. This project models the parts of it that are decided by its own code and proves what
they promise. It covers six areas.

1. **Access logs.** `LogQueue` says what the three critical sections of the queue do to a sequence;
   `AccessLog.AccessLogBuffer` implements them on a Go slice (`GoSlice`: array, offset, length, capacity,
   overlapping copy, append in place or into a fresh array); `AccessLogProtocol` is the whole pipeline as a
   state machine in which records interleave with a post in flight, the queue and batch limits symbolic.
   `AccessLogRefinement` drives the array-backed buffer through any run of the protocol and shows that the
   two agree at every step.
2. **Running and stopping.** `ServiceRun` is `Service.Run` with one step per atomic operation, for any number
   of inbounds and handlers; the order of a handler's last steps is the order of its deferred calls.
   `ServiceAccounts` keeps every counter equal to a count of goroutines, `ServiceShutdown` adds what each
   phase of the run implies, `ServiceProgress` gives the termination measure. All three are about every state
   that a run can reach (`ServiceShutdown.Reachable`). `ServiceOutcomes` says what a run does, beside what it
   never does: whom it admits, how it starts and every way it stops. `HandlerScripts` tells a connection's steps
   from the outcomes of the calls it makes, and that there are no others.
3. **Relay pumps.** `Pumps` is the two-worker copy protocol of `pipe` (both copies of it) and
   `pipeUDPAssociate`; `UdpRelay` adds the datagram loops and the de-duplicated access log of a UDP session.
4. **Keys.** `Base64` is the encoder and decoder in bit arithmetic with the library's lenient trailing
   bits (RFC 4648 sections 3.2, 4 and 5); `Alphabet` compares it with the tables and examples of the RFC, `Keys`
   is the four-way fallback.
5. **Credentials.** `ClientStore` is the layered store with its copies of secrets on the heap; `UserSync` is one
   conditional pull and any run of pulls (RFC 9110 sections 8.8.3, 13.1.2 and 15.4.5); `SyncedUser` says which
   id and secret a user is owed and that a lookup finds them; `Signing` is the text under a request's signature.
6. **Configuration.** `Settings` holds the defaults, `Clean` says without them which configurations they leave
   alone, `Checks` the checks of the parts, `Config` the method that rewrites and checks the configuration in
   place, `NodeSetup` the construction of the node, `StaticClients` that every listed client is found in it,
   `Guarantees` what a validated configuration is worth to later code.

Where the code does not do what a reader might expect, the project says exactly when it does:

- The final flush sends one batch. It empties the queue if and only if the queue fits in a batch
  (`FinalFlushDeliversIffOneBatch`); `FlushLeavesRecord` is a run in which no post fails and a record stays behind.
- Decoding a key and encoding it again gives the same text only for canonical texts: the decoder ignores the
  unused bits of the last symbol (`DecodeEncodeIffCanonical`).
- A server that tags some answers and not others can make the node keep a stale list: an untagged 200 replaces the
  list and keeps the old tag. Over any honest run, whatever it tags, a 200 leaves the server's list, and a 304
  leaves it if and only if the last list that arrived has the same credentials as the last tagged one
  (`RightAfterSuccessIff`); every further honest answer can be trusted if and only if those two agree, which the
  client can tell from what it received (`NextAnswerRightIff`). At an untagged 200 the client's guard would be to drop
  the tag it holds unless the credentials stay the same (`UntaggedAnswerSafeIff`). `MixedTaggingGoesStale` is a run
  that goes wrong.
- A user id belongs to the secret that a lookup returns, except where a dynamic entry without a user hides a static
  one with a user (`UserOwnsSecretIff`); static entries built from a configuration have no user.
- `PublicURL` is trimmed of white space and then of slashes, so a slash behind a space survives one pass. A second
  `Validate` changes nothing if and only if the first left no white space at the end of the URL
  (`SecondPassChangesNothingIff`), and it succeeds if and only if the URL trimmed further is still a request URI
  (`SecondValidateSucceedsIff`). With `"/ / /"`, if `"/ "` is accepted as a request URI, any valid
  configuration with a control plane passes once and fails the second time (`ValidOnceOnly`).

## Model

| member | source | states |
|---|---|---|
| AccessLog.AccessLogBuffer.Record | internal/node/access_log.go:38-49 | A record with a blank domain or on a full queue is refused; otherwise it is queued last. Nothing else changes. |
| AccessLog.AccessLogBuffer.Drain | internal/node/access_log.go:51-69 | The oldest records up to the limit leave the queue in order, the rest stay in order, and batch and buffer share no storage, whether the backing slice itself is handed out or the tail is shifted down in place. |
| AccessLog.AccessLogBuffer.ShiftDown | internal/node/access_log.go:66-67 | The overlapping copy of the tail over the head, in the same array, leaves exactly the tail. |
| AccessLog.AccessLogBuffer.Restore | internal/node/access_log.go:71-84 | The batch goes back in front of what is queued and the newest overflow is cut; the storage is new. |
| AccessLog.AccessLogBuffer.ReportAccessLogs | internal/node/kboard.go:178-194 | One report on the heap, with records by other goroutines during the post: the request reads the batch as it was drained, and the queue ends as the sequence model says on success and on failure. |
| LogQueue.EnqueueAllIsPrefix | internal/node/access_log.go:44-48 | Recording one by one keeps exactly the longest prefix of the arrivals that fits. |
| LogQueue.FailedReport | internal/node/access_log.go:51-84 | After drain, arrivals and restore the whole queue as it stood before the drain is a prefix of the queue; the number lost is the overflow, at most the arrivals queued meanwhile and at most the batch. |
| AccessLog.FailedReportKeepsOlder | internal/node/kboard.go:182-192 | The same for a report of the reporter: at most a batch of 5000 is lost, and only newer records. |
| AccessLog.RecordedAllEnqueues | internal/node/access_log.go:39-48 | Records with blank domains never matter: a run of Record calls is the run over the others. |
| AccessLog.TwoReportsEmpty | internal/node/access_log.go:11-15 | A full queue is two batches: two reports whose posts succeed empty it, one does up to 5000 records. |
| AccessLog.RoomForTenThousand | internal/node/access_log.go:44-48 | A record is refused by a queue of ten thousand and by no shorter one. |
| AccessLogProtocol.InvStep | internal/node/access_log.go:38-84 | Every step of a connection, of the reporter or of cancellation keeps order, conservation and both bounds. |
| AccessLogProtocol.FifoAndConservation | internal/node/kboard.go:92-111 | Over any interleaving delivered, in flight and queued form an in-order subsequence of the accepted records, each accepted record is in exactly one of delivered, in flight, queued and dropped, and both bounds hold. |
| AccessLogProtocol.NoFailureNoLoss | internal/node/kboard.go:178-194 | Nothing is missing if and only if nothing was cut; without a failed post delivered, in flight and queued are the accepted records exactly. |
| AccessLogProtocol.ExitedIff | internal/node/kboard.go:100-110 | After any run the reporter has returned if and only if it began its final report and no post is in flight, and it begins that one only after cancellation; without it, it is back in its select after every post. |
| AccessLogProtocol.CanDeliverAll | internal/node/kboard.go:105-108 | From every state reached without a final report, ordinary reports whose posts succeed empty queue and batch and deliver, in order, everything that was kept. |
| AccessLogProtocol.FailedReportKeepsOlderRecords | internal/node/kboard.go:182-193 | Whatever interleaves with a post that fails, the queue at the time of the drain is a prefix of the queue after the restore; what is lost is exactly the overflow and is the newest end of what was accepted during the post. |
| AccessLogProtocol.ExitedReporterDeliversNothing | internal/node/kboard.go:102-104 | After the reporter returned nothing more is delivered, and what is queued stays. |
| AccessLogProtocol.FinalFlushDeliversIffOneBatch | internal/node/kboard.go:101-104 | The final flush delivers everything queued when it starts if and only if that fits in one batch. |
| AccessLogProtocol.FlushLeavesRecord | internal/node/kboard.go:101-104 | With one record more than a batch queued at cancellation the reporter returns, no post having failed, and that record is never delivered in any later run. |
| AccessLogProtocol.RecordsProject | internal/node/access_log.go:38-49 | Records of the protocol, with cancellation anywhere between them, are what Record does to the contents. |
| AccessLogProtocol.ReportProjects | internal/node/kboard.go:178-194 | A report of the protocol, the final one too, with any records and cancellation during the post and on both outcomes, is what the heap class's report does: same batch, same contents. |
| AccessLogRefinement.StepOnHeap | internal/node/access_log.go:38-84 | Each step of the protocol, done on the array-backed buffer, keeps buffer, batch and delivered items equal to the protocol's, and batch and buffer apart. |
| AccessLogRefinement.Drive | internal/node/kboard.go:92-111 | After any run of the protocol on the heap the buffer holds exactly the queued items, the batch those in flight, and the delivered ones are what the requests read. |
| GoSlice.MoveCells | internal/node/access_log.go:66 | A copy between possibly overlapping ranges of one array gives the destination the old source cells. |
| GoSlice.Append | internal/node/access_log.go:47 | Append keeps the old elements and adds one, in place when there is room and in a fresh array otherwise. |
| ServiceAccounts.HandlerKeepsAccounts | internal/node/service.go:234-240 | Each atomic step of a handler keeps every token count, wait-group count and metric equal to the number of goroutines it stands for. |
| ServiceAccounts.LoopKeepsAccounts | internal/node/service.go:216-241 | So does each step of an accept loop. |
| ServiceAccounts.Admission | internal/node/service.go:212-241 | Tokens held by an inbound are its handlers that have not released theirs plus the acceptor between acquire and spawn, never above MaxConnections; every accepted connection is rejected, on its way in or has a handler. |
| ServiceAccounts.ActiveBounded | internal/node/service.go:224-247 | With every inbound bounded, active stays between 0 and the sum of the limits. |
| ServiceAccounts.ErrorAccounting | internal/node/metrics.go:53-76 | The three error counters together are the number of failed connections and at most total; active plus ended is total plus the handlers between the two begin increments. |
| ServiceShutdown.StepKeeps | internal/node/service.go:88-171 | Every step of every goroutine keeps the invariant of the run. |
| ServiceShutdown.Reachable | internal/node/service.go:88-171 | The invariant holds in every state that any run reaches. |
| ServiceShutdown.SendersNeverBlock | internal/node/service.go:92-132 | Whenever an accept loop or the admin server is about to send its error the channel has room. |
| ServiceShutdown.AdminServesWhenReady | internal/node/service.go:337-346 | Once the admin server runs every inbound listens. |
| ServiceShutdown.NoAddAfterWaitBegins | internal/node/service.go:158-166 | After waitConnections begins, on each exit path, no accept loop moves, no handler appears, and the connection count only falls. |
| ServiceShutdown.NoAddInRest | internal/node/service.go:383-394 | The same over any further run: the handlers and loops are those at the start of the wait and the count never exceeds its value there. |
| ServiceShutdown.EveryRun | internal/node/service.go:88-247 | After any run from the start: the token equation and limit of each inbound, the split of its accepted connections, room for every sender, the bound of active, the error and begin-end balances, and no admin server before every accept loop was started. |
| ServiceShutdown.DrainedMeansIdle | internal/node/service.go:383-394 | If the wait ended through done, every handler has ended, active is 0 and no token is held. |
| ServiceProgress.NextWaited | internal/node/service.go:165 | While wg.Wait is pending some goroutine it waits for can take a step that lowers the measure. |
| ServiceProgress.CanReturn | internal/node/service.go:151-170 | From every reachable state of a run that is ending, Run can return by steps of its own goroutines, within the measure. |
| ServiceProgress.ProgressIsKept | internal/node/service.go:158-165 | While wg.Wait is pending no step but the reporter's ticker raises the measure and each step of a waited-for goroutine lowers it. |
| ServiceOutcomes.AdmittedIff | internal/node/service.go:212-232 | In every reachable state a connection in hand is rejected if and only if its inbound is bounded and its limit of handlers hold tokens, and admitted otherwise. |
| ServiceOutcomes.UnboundedRejectsNone | internal/node/service.go:212-224 | An inbound without a limit has rejected nothing after any run. |
| ServiceOutcomes.NextConnection | internal/node/service.go:216-241 | An accepting loop with its listener open gives the next connection a new handler, or counts one rejection if it is full, and accepts again. |
| ServiceOutcomes.EveryRunStarts | internal/node/service.go:116-150 | In the select a configured admin server and reporter have been started, and no others ever; the reporter flushes only in a cancelled run; a loop that ended without an error did so because the run was cancelled or its listener closed, and the admin server because it was shut down. |
| ServiceOutcomes.AcceptErrorReportedIff | internal/node/service.go:217-223 | A failed Accept is reported if and only if the run is not cancelled and the listener not closed. |
| ServiceOutcomes.ReportsThenFlushes | internal/node/kboard.go:92-104 | The reporter reports before it first waits and flushes before it ends. |
| ServiceOutcomes.ReporterGoesOn | internal/node/kboard.go:100-110 | A waiting reporter can report at every tick, and flushes only when cancelled. |
| ServiceOutcomes.CanStart | internal/node/service.go:96-151 | If nothing fails Run reaches its select with every inbound accepting and exactly the configured servers started. |
| ServiceOutcomes.FailedListenStops | internal/node/service.go:96-123 | A failed listen of any inbound, or of a configured admin server, leads to cancellation; an admin server that is not configured cannot fail. |
| ServiceOutcomes.CancellationStops | internal/node/service.go:152-158 | Cancellation from outside ends the select. |
| ServiceOutcomes.AcceptErrorStops | internal/node/service.go:108-113 | A failed Accept of a running inbound ends the select through the error channel. |
| ServiceOutcomes.AdminErrorStops | internal/node/service.go:127-133 | So does a failing admin server. |
| ServiceOutcomes.IdleRunDrains | internal/node/service.go:383-390 | With no connection left the final wait can end through done. |
| HandlerScripts.EveryScriptIsPath | internal/node/service.go:244-283 | Every combination of outcomes of dial, handshake, request, answer and relay is a path of the handler that counts exactly the error those outcomes call for and one connection begun and ended. |
| HandlerScripts.EveryPathIsScript | internal/node/server_relay.go:81-172 | Whatever a handler does from its start to its end is one of these. |
| Pumps.StepKeeps | internal/node/service.go:285-306 | Every step of a worker, of the receiver or of the surroundings keeps transfer, counters, outcomes and channel exact. |
| Pumps.PrefixesAndRoom | internal/node/service.go:286-296 | Each side has received a prefix of what the other sent; a worker about to send always finds room in the channel. |
| Pumps.ReturnOfPump | internal/node/server_relay.go:307-328 | On return the byte counters have grown by exactly the bytes that arrived; the result is nil if and only if both outcomes are, otherwise the first one sent that is an error. |
| Pumps.ReturnOfPipe | internal/node/service.go:285-306 | pipe returns with both outcomes only, and then each side has received a prefix, the counters have grown by exactly those lengths and the first error received decides. |
| Pumps.ReturnOfUdpAssociate | internal/node/server_relay.go:233-246 | pipeUDPAssociate returns with both outcomes and the first error, or through its context with none, both ends closed either way. |
| Pumps.ResultOfPipe | internal/node/service.go:396-401 | Told from the ends of the copies alone: pipe returns nil if and only if no copy ended with anything but an end of stream or a closed connection, otherwise the error of the worker that sent one first. |
| Pumps.ResultOfUdpAssociate | internal/node/server_relay.go:233-241 | The same for pipeUDPAssociate when it does not leave through its context. |
| Pumps.WhatClosingStops | internal/node/service.go:298-300 | Closing an end stops the reads from it and the writes to it, and no others. |
| Pumps.AnyEndCanHappen | internal/node/service.go:287-296 | A copy can end in any way between chunks, and a write can fail after any part of its chunk, which then has arrived. |
| Pumps.CanCarryAll | internal/node/service.go:287-296 | While the ends are open and a copy runs, everything its peer has sent can arrive. |
| Pumps.LeavesOnlyCancelled | internal/node/server_relay.go:242-246 | A UDP session leaves through its context only after that has ended. |
| Pumps.CanLeaveByContext | internal/node/server_relay.go:242-246 | A cancelled UDP session that still waits can close both ends and return nil. |
| Pumps.CanReturn | internal/node/service.go:274-305 | Once one copy has returned, or the context has ended with both copies still blocked, the pump can return by closing both ends, a worker still copying needing only that reads and writes on closed ends fail. |
| Pumps.WorkersFinishAfterContext | internal/node/server_relay.go:242-246 | After the context branch returned without receiving, each worker can still send and finish. |
| UdpRelay.FirstOccurrencesSelect | internal/node/server_relay.go:253-260 | The datagrams selected for the log are, in order, exactly those whose lower-cased target no earlier one has. |
| UdpRelay.EachKeyOnce | internal/node/server_relay.go:253-260 | Every target is logged, and none twice. |
| UdpRelay.UdpSession.RecordUDPAccess | internal/node/server_relay.go:249-266 | A new target is marked and its record attempted once; a marked one, or a relay without access log, changes nothing. |
| UdpRelay.UdpSession.PumpUp | internal/node/server_relay.go:180-202 | At any moment of a session, also after its receiver left through the context: with other connections recording between the turns, the records this session has attempted are the first occurrences among the successfully written datagrams, seen is their key set, the queue is what all attempts as they interleaved make of it, and the byte counter and outcome are exact. |
| UdpRelay.UdpSession.PumpDown | internal/node/server_relay.go:204-231 | What is counted is what the client received plus the packet whose write failed; packets from odd addresses count nothing. |
| UdpRelay.UpOutcomeIs | internal/node/server_relay.go:181-199 | The outgoing worker goes on exactly while turns pass and ends with the error of the first that does not: a failed resolution always, a failed read or write unless it is a mere close. |
| UdpRelay.DownOutcomeIs | internal/node/server_relay.go:206-229 | The returning worker goes on exactly while packets are skipped or written, and a mere close is no error. |
| Alphabet.SymbolIsInTable | internal/node/client_store.go:118-120 | A sextet is written as the character at its place in table 1 or table 2 of RFC 4648. |
| Alphabet.ValueIsPlaceInTable | internal/config/config.go:509-519 | A character reads as its one place in the table of its variant, and as nothing if it has none. |
| Alphabet.OneByteExample | internal/node/client_store.go:118-120 | The example "f" of RFC 4648 section 10, with and without padding. |
| Alphabet.TwoBytesExample | internal/node/client_store.go:118-120 | The example "fo". |
| Alphabet.ThreeBytesExample | internal/node/client_store.go:118-120 | The example "foo". |
| Alphabet.LastSymbolsExample | internal/config/config.go:500-526 | Keys of the last two symbols read as FB EF BE and FF FF FF, in both alphabets. |
| Base64.DecodeIffWellFormed | internal/config/config.go:509-519 | Group-by-group decoding accepts exactly the well-formed texts of RFC 4648 and yields their sextets regrouped. |
| Base64.VariantsAgree | internal/config/config.go:509-525 | Two variants that both accept a text read the same bytes. |
| Base64.RegroupKeepsBits | internal/config/config.go:517-519 | Bit for bit, the decoded bytes are the symbols' bits in order, cut after the last whole byte. |
| Base64.EncodeDecode | internal/node/client_store.go:118-120 | Every variant decodes its own encoding to the original bytes. |
| Base64.DecodeEncodeIffCanonical | internal/config/config.go:509-519 | Encoding what was decoded gives the text back if and only if its unused trailing bits are zero. |
| Base64.NoncanonicalAccepted | internal/config/config.go:509-519 | "AB" is accepted beside "AA" for one zero byte and is not what the byte encodes to. |
| Keys.DecodeKey | internal/config/config.go:500-526 | The loop returns the first variant's result that accepts, and otherwise the first variant's error. |
| Keys.FirstAcceptedIsUnion | internal/config/config.go:515-525 | Trying variants in any order is the union of the partial decoders. |
| Keys.OrderIrrelevant | internal/config/config.go:509-525 | Two orders of the same variants decode every text alike. |
| Keys.KeyAcceptedIff | internal/node/kboard.go:359-385 | A text is a key if and only if, white space removed, it is well formed in one of the four variants. |
| Keys.KeyRoundTrip | internal/config/config.go:500-526 | Any bytes, encoded in any variant with spaces, tabs, CR or LF inserted anywhere, decode to themselves. |
| Keys.WhiteSpaceAnywhere | internal/config/config.go:501-508 | A space, tab, LF or CR at any position of any text changes nothing of what it means as a key. |
| Keys.SpacedKeyRoundTrip | internal/config/config.go:500-526 | Any bytes, encoded in any variant, come back after any number of such insertions. |
| Keys.OthersStay | internal/config/config.go:501-508 | No other character is dropped. |
| Keys.ClientSecretRoundTrip | internal/node/client_store.go:118-120 | decodeKLESSKey inverts encodeClientSecret. |
| Keys.KeyLength | internal/config/config.go:280-292 | A key of k symbols has floor(6k/8) bytes, so the checks for 32 or more, 32 and 64 bytes are k at least 43, k = 43 and k = 86. |
| ClientStore.LayerIsLastUsable | internal/node/client_store.go:86-100 | The maps built from a list hold for each id the last usable entry of that id. |
| ClientStore.LayerKeys | internal/node/client_store.go:86-100 | Keys are trimmed and not empty, and each belongs to a usable entry of the list. |
| ClientStore.LayerConcat | internal/node/client_store.go:66-76 | Adding lists one after the other equals adding their concatenation. |
| ClientStore.CredentialMaps | internal/node/client_store.go:86-100 | Both maps have the same keys and come from the same entries, with secrets in fresh storage. |
| ClientStore.DynamicClientStore.LookupClientSecret | internal/node/client_store.go:28-41 | Returns, in fresh storage, the secret of the last usable dynamic entry for the id, otherwise of the last static one. |
| ClientStore.DynamicClientStore.UserID | internal/node/client_store.go:43-50 | Returns the positive user of the dynamic entry, otherwise the user of the static one or 0. |
| ClientStore.DynamicClientStore.SetStatic | internal/node/client_store.go:58-64 | The static history restarts with the given list; the dynamic layer stays. |
| ClientStore.DynamicClientStore.AddStatic | internal/node/client_store.go:66-76 | The static history is extended by the given list; the dynamic layer stays. |
| ClientStore.DynamicClientStore.ReplaceDynamic | internal/node/client_store.go:78-84 | The dynamic layer becomes the given list; the static one stays. |
| ClientStore.MutationsStayOutside | internal/node/client_store.go:28-100 | Whatever list is put in through any of the three setters, and whatever is then written into the slices passed in, into any other slice of a caller and into the slice a lookup returned, the next lookup answers from the bytes as they were put in. |
| ClientStore.UserOwnsSecretIff | internal/node/client_store.go:28-50 | A positive user id belongs to the entry whose secret is returned, if and only if no dynamic entry without a user hides a static entry with one. |
| ClientStore.UserOwnsSecret | internal/node/client_store.go:43-50 | With static entries that have no user, a positive user is the dynamic owner of the returned secret. |
| ClientStore.RetrievableSecretsAreLong | internal/node/client_store.go:28-41 | A lookup never returns a secret shorter than the shortest one put in. |
| UserSync.CredentialsAreSound | internal/node/kboard.go:295-316 | Every synced secret has at least 32 bytes and comes from a user of the list with the entry's user id. |
| UserSync.EncodedSecretArrives | internal/node/kboard.go:300-315 | A user whose secret text is an encoded secret gets exactly those bytes. |
| SyncedUser.CredentialIs | internal/node/kboard.go:295-316 | A user's credential is exactly: the first given of KLESS client id, client id, UUID and the digits of the number; the KLESS secret, or the older one, or the derived one; and the number. |
| SyncedUser.NoCredentialIff | internal/node/kboard.go:295-310 | There is none if and only if all four ids are missing or the secret text is no key of at least 32 bytes. |
| SyncedUser.LookupSynced | internal/node/kboard.go:120-145 | After a sync, a lookup of the last user's id finds exactly the secret that user is owed, and the user's number. |
| UserSync.KboardReporter.SyncUsers | internal/node/kboard.go:120-145 | One sync moves tag and dynamic layer as the protocol model says; a failed fetch or decode, or no endpoint, changes neither. |
| UserSync.KboardReporter.BuildCredentials | internal/node/kboard.go:136-142 | The credentials are those of the acceptable users in order, in fresh storage. |
| ListTag.IdentifyingTagExists | internal/node/kboard.go:130-132 | A tagging that gives different lists different nonempty tags exists, so the results on conditional syncs are about something. |
| UserSync.SyncKeepsCoherent | internal/node/kboard.go:125-143 | An honest answer that is not an untagged 200 keeps the remembered tag naming the list in the store, and a success leaves the server's current list there. |
| UserSync.ConditionalSyncIsFetch | internal/node/kboard.go:120-145 | Over any run of syncs with a server that tags every 200 with an identifying tag, or none, the dynamic layer after each success, 200 or 304, equals the credentials of the server's current list. |
| UserSync.LayerIsPulled | internal/node/kboard.go:120-145 | After any run of syncs, whatever the server answers, the dynamic layer is the credentials of the last list that arrived. |
| UserSync.HeldTagIsLastTagged | internal/node/kboard.go:125-132 | Over any honest run the client sends the tag of the last list that came with one, whatever untagged lists came after it, and no tag before the first. |
| UserSync.RightAfterSuccessIff | internal/node/kboard.go:120-145 | Over any honest run, tagged or not from answer to answer: after a 200 the layer is the server's list; after a 304 it is if and only if the last list that arrived has the credentials of the last tagged one, hence always when the last list was tagged. |
| UserSync.NextAnswerRightIff | internal/node/kboard.go:125-143 | After an honest run every honest answer that succeeds leaves the server's list if and only if the last list that arrived and the last tagged one have the same credentials. |
| UserSync.UntaggedAnswerSafeIff | internal/node/kboard.go:130-143 | For a coherent client whose tag, if any, is that of a list, keeping the tag at an untagged 200 leaves every later honest answer right if and only if no tag is held or the new credentials equal the stored ones. |
| UserSync.MixedTaggingGoesStale | internal/node/kboard.go:130-135 | A tagged list, an untagged list and the first list again with 304 are an honest run: the client still sends the first tag, and the second list stays in the store, wrong whenever the credentials differ. |
| Signing.SignedTextIdentifiesRequest | internal/node/kboard.go:318-329 | Different requests sign different texts, even when a node id holds line feeds. |
| Signing.SignedLines | internal/node/kboard.go:318-326 | The signed lines are, in order, the verb, the path, the query, the node and the time. |
| Text.TrimSpaceTrims | internal/config/config.go:564 | Trimming leaves no white space at either end, and changes exactly the texts that have some. |
| Text.SpaceIsListed | internal/config/config.go:508 | White space is the 25 characters that unicode.IsSpace lists. |
| Text.TrimSpaceIs | internal/config/config.go:508 | What stands between white space, itself trimmed, is what trimming leaves. |
| Text.FoldedAgain | internal/config/config.go:612 | Trimming and lower-casing a name twice is doing it once. |
| Settings.ModeIs | internal/config/config.go:713-722 | Which words name which of the two modes; any other word is kept, folded. |
| Settings.EndpointIs | internal/config/config.go:596-608 | An endpoint keeps its trimmed text, a relative one behind a slash. |
| Settings.DefaultsKeepDurations | internal/config/config.go:563-647 | Writing a default out never changes what a duration field means. |
| Settings.NormalEndpointAgain | internal/config/config.go:596-608 | A normalised endpoint is its own normal form. |
| Settings.KboardDefaultsAgain | internal/config/config.go:582-594 | A second pass of defaults over the control plane's part changes at most the public URL. |
| Settings.UpstreamDefaultsAgain | internal/config/config.go:610-623 | Defaults of an upstream are idempotent. |
| Settings.NormalModeAgain | internal/config/config.go:713-722 | Normalising an inbound mode is idempotent, aliases included. |
| Settings.InboundDefaultsAgain | internal/config/config.go:625-647 | Defaults of an inbound and of its KLESS part are idempotent. |
| Settings.NormalisedAgain | internal/config/config.go:563-647 | A second Validate would change nothing but the public URL. |
| Settings.NormalUrlAgainIff | internal/config/config.go:583 | Trimming a URL twice is trimming it once if and only if no white space directly precedes its trailing slashes. |
| Settings.PassesReachFixedPoint | internal/config/config.go:583 | Repeated trims reach a fixed point, at the latest after as many passes as the text has characters. |
| Settings.SecondPassChangesNothingIff | internal/config/config.go:144-186 | Validating twice gives the configuration of validating once if and only if the URL left by the first does not end in white space. |
| Settings.SpacedSlashesOutlastValidate | internal/config/config.go:582-583 | The family of URLs on which it does not. |
| Clean.UnchangedIffClean | internal/config/config.go:563-647 | Normalising leaves exactly the clean configurations alone: trimmed, case folded, no alias for a mode, every default written out, endpoints rooted or with a scheme, no slash after the URL. |
| Clean.NormalisedIsCleanIff | internal/config/config.go:144-186 | What Validate leaves is clean if and only if its public URL does not end in white space. |
| Clean.EndpointFixedIff | internal/config/config.go:596-608 | An endpoint is left alone if and only if it is trimmed and empty, rooted or with a scheme. |
| Clean.ModeFixedIff | internal/config/config.go:713-722 | A mode is left alone if and only if it is trimmed, in lower case and no alias. |
| Checks.DurationOkIff | internal/config/config.go:748-760 | A duration that passed its check parses, to something positive, wherever it is read again. |
| Checks.CapabilityIsListed | internal/config/config.go:690-711 | The nine names and their capabilities, and no others. |
| Checks.AddressOrUrl | internal/config/config.go:740-746 | Of the transports exactly TCP and TLS need an address, the others a URL. |
| Checks.KeySizes | internal/config/config.go:280-292 | A secret has at least 43 symbols, a public key 43, a private key 86. |
| Checks.UnionUnique | internal/config/config.go:653-661 | The bits asked for determine the mask. |
| Checks.CapabilityMask | internal/config/config.go:649-662 | Fails if and only if a name is unknown; otherwise the mask has exactly the bits of the names, or of the transport without names, and is not zero. |
| Checks.CapabilityMaskForNames | internal/config/config.go:664-688 | Fails if and only if a name is unknown or all are blank; otherwise the mask has exactly the bits of the names, everything for no names or "all", and is not zero. |
| Checks.SameSecretSameKey | internal/config/config.go:724-728 | Texts equal up to surrounding space are equal keys, so the comparison of bytes subsumes the comparison of texts. |
| Checks.ValidateKless | internal/config/config.go:269-315 | Accepts exactly the client settings with a secret of 32 bytes or more that differs from a 32-byte public key, a matching private key if any, and good limits, duration and names. |
| Checks.ValidateUpstream | internal/config/config.go:230-262 | Accepts exactly the good upstreams, and leaves the defaults filled in either way. |
| Checks.ValidateServerKeys | internal/config/config.go:367-406 | Accepts exactly a 64-byte private key with a matching public key if any, and an own secret, if any, that is long, is not the public key and has an id or dynamic users. |
| Checks.ValidateServer | internal/config/config.go:365-433 | Accepts exactly the good server settings, trims all clients on success and a prefix of them on failure. |
| Checks.ValidateInbound | internal/config/config.go:528-561 | Accepts exactly the good inbounds of the two modes, and leaves each normalised on success. |
| Config.KboardConfig.Validate | internal/config/config.go:188-209 | Accepts exactly the complete control-plane settings, and leaves them with defaults either way. |
| Config.Config.ApplyDefaults | internal/config/config.go:563-580 | In place, the configuration becomes its defaults, behind the shared control-plane pointer too. |
| Config.Config.Validate | internal/config/config.go:144-186 | Succeeds if and only if the normal form is valid and then leaves exactly the normal form; otherwise names the first part that fails, everything before it being fine, and leaves the configuration as far as it came. |
| Config.CheckedIsOkIff | internal/config/config.go:480-494 | Trimming its clients does not change whether an inbound passes. |
| NodeSetup.StaticClientCredentials | internal/node/server_relay.go:56-79 | Fails if and only if a secret does not decode; otherwise its own client and then the listed ones, without users. |
| NodeSetup.NewServerRelay | internal/node/server_relay.go:31-54 | Fails, leaving the store alone, if and only if the private key or a secret does not decode; otherwise the inbound's credentials are added to the shared store. |
| NodeSetup.New | internal/node/service.go:43-86 | Succeeds if and only if the configuration is valid and its CA files are still there for the dialers. In the node built, there is one dialer for each upstream and one relay for each server inbound, the store holds the static credentials of all of them in order, every unguarded lookup of a connection finds its dialer or its own relay, every duration whose error is dropped is positive, and the capability names of every relay are known, so that the dropped error of its mask is nil. |
| StaticClients.StaticsAreListed | internal/node/server_relay.go:56-79 | The static credentials of a node are those of the clients its server inbounds list, none left out, in order. |
| StaticClients.LookupListed | internal/node/service.go:59-75 | After New a lookup of a listed client finds the secret that is configured for it, and no user, unless a client listed later has the same id. |
| NodeSetup.EveryInboundIsServed | internal/node/service.go:249-262 | A tcp inbound finds the dialer of the upstream it names and a server inbound its own relay; the missing-relay branch is unreachable. |
| NodeSetup.DroppedDurationErrorsAreNil | internal/config/config.go:465-478 | Every duration whose error is dropped parses to something positive, for the run, the control plane, the upstreams and the server inbounds. |
| NodeSetup.DroppedCapabilityErrorsAreNil | internal/node/server_relay.go:287 | For a valid configuration the capability names of every relay are known: the error dropped when its mask is computed is nil. |
| NodeSetup.NewRelays | internal/node/service.go:63-75 | For validated inbounds neither error branch of the loop is reachable. |
| NodeSetup.StillOkIff | internal/node/dialer.go:48-52 | Checked again by its dialer, a validated upstream can fail for its CA file only. |
| NodeSetup.EmptyIsNoPrivateKey | internal/node/server_relay.go:338-340 | An empty private key never passes validation, so the later check for it never fires. |
| Guarantees.ServerConfig | internal/node/server_relay.go:286-298 | For a validated inbound the dropped capability error is nil, the mask is what was asked for and not zero, times and frame limit are positive and the padding is in bounds. Times, padding and frame limit are the configured ones, or the defaults where none is given. |
| Guarantees.ClientConfig | internal/config/config.go:317-344 | For a validated upstream it does not fail; its keys and mask are those that were checked, and its times, padding and frame limit the configured ones, or the defaults where none is given. |
| Guarantees.SecondValidateSucceedsIff | internal/config/config.go:144-186 | A validated configuration passes again if and only if its public URL, trimmed further, is still there and a request URI. |
| Guarantees.SlashesRunOut | internal/config/config.go:188-192 | A URL that one Validate leaves as slash and space and the next one empties. |
| Guarantees.ValidOnceOnly | internal/config/config.go:118-135 | With that URL any valid configuration with a control plane passes once and fails the second time, as when what Load returned is handed to New. |
| Guarantees.StaticsAreSound | internal/node/server_relay.go:56-79 | Static credentials of a valid configuration have secrets of 32 bytes or more, trimmed ids and no users. |
| Guarantees.CredentialCoherence | internal/node/client_store.go:28-50 | For the lists of a node from a valid configuration, after any run of syncs: what can be looked up has at least 32 bytes, and a positive user id comes with the secret of that very user of the last list that arrived. |
| Guarantees.LookupAfterSyncs | internal/node/service.go:59-75 | The same on the heap: New, then any answers to the reporter's syncs, then the two lookups on the one shared store. |

## Left out

- KLESS: the handshake, framing and relay codec (`kray/pkg/...`) are not part of this model; a handshake or relay read
  is a step that succeeds or fails. Its capability constants are nonzero 32-bit masks, its padding limit and default
  skew parameters.
- SHA-256, HMAC and Ed25519 are parameters; only the sizes of digest and keys are fixed, and the text that is signed.
- Sockets, DNS, TLS, HTTP and JSON: only the outcomes of requests, listens, accepts, dials and copies are modelled.
  The fields `Headers` and `InsecureSkipVerify` of an upstream, which validation does not touch, are left out.
- `time.ParseDuration`, `url.Parse`, `url.ParseRequestURI` and Unicode lower-casing are parameters; of the first only
  that the default texts parse to the defaults, of the last that it is idempotent, keeps white space apart and is as
  usual on ASCII.
- Clocks: tickers, timeouts and the grace timer are steps that may happen at any time, so nothing is said about how
  long anything takes, and progress is stated as a measure and an enabled step rather than as fairness.
- ServiceRun: the goroutines of the run and the atomic counters of Metrics are one state machine over values instead of
  classes, since their interleaving is the point; a counter is an unbounded integer, so 64-bit wrap-around is left out,
  as are snapshots of several counters taken one load at a time, and the error value that Run returns.
- Pumps.ReturnOfUdpAssociate: says how pipeUDPAssociate ends; its datagrams, their counters and its log are in
  `UdpRelay`, whose two loops are separate methods over the turns they have taken.
- Pumps: the two copy loops are a state machine over values for the same reason; `io.Copy` is reads and writes of
  chunks, of any sizes.
- ServiceProgress.CanReturn: assumes, as the code does, that a closed listener makes Accept return, that Shutdown makes
  Serve return and that a post of the reporter ends.
- AccessLog.AccessLogBuffer.ReportAccessLogs: is for a reporter with an access-log endpoint; without one the call does nothing. The
  methods on a nil buffer, which refuse or do nothing, are left out except in a UDP session without an access log.
- AccessLogProtocol: "delivered" means that the post returned nil; a post that fails after the server took it is
  delivered twice later, which is not modelled.
- The text of a log item (`accessLogItem`, `protocolForTarget`, `targetURI`), the alive and traffic reports, the batch ids
  and the admin handlers other than readiness: they format values for a reader or a request, and no state modelled here
  depends on what they write.
- Base64.DecodeIffWellFormed: the library's own skipping of CR and LF inside a text is left out, as no text reaches it
  with either; error offsets are left out, and a decoding error carries only the variant that reported it.
- Text: strings are sequences of characters; bytes that are not valid UTF-8 are left out.
- ClientStore.DynamicClientStore.AddStatic: the two range loops that assign every new key are written as one map merge;
  the read-write lock is left out, each method being one critical section.
- UserSync.KboardReporter.SyncUsers: takes the outcome of the request as its argument; the request itself and its
  log lines are left out.
- Config.Config.Validate: reports which part failed, not the text of the error. Upstreams and inbounds are sequences that
  the method reassigns, so the sharing of a slice's elements between copies of a configuration, as New's argument has
  with its caller's, is left out; the sharing of the control-plane record behind its pointer is modelled.
- Load, WriteSample and the command line are left out.
