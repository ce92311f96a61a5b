# A verified model of libsignal-service-rs

This project models the parts of the crate that decide things around the cryptography, and proves
what they promise: the session locks, the send and repair loop, the WebSocket worker and its message
pipe, optimistic storage writes, group changes and group creation, attachments and the contact
stream, username links, message padding, envelope triage, pre-key ids and the distribution of PNI
keys.

Ciphers, key derivation, the Double Ratchet, zkgroup and the protobuf bodies are records of functions
with an inverse law (`Lawful`, `Encodable`); servers, clocks, random draws, the order in which a hash
set is iterated and everything else from outside are oracles that may answer anything at every turn.
Where a proof needs an honest peer, a predicate says so (`Cooperative`, `HonestOver`, `RejectsKey`,
`KeepsUp`, `IdsKeptApart`, `FairDraws`, `NeverSays`). That these assumptions can be met is proved as
well: `Witnesses.ParamsExist`, `Witnesses.LibrariesExist`, `ContactStream.CodecsExist`,
`AttachmentCipher.BadPaddingOverwrites`, `SendConvergence.HonestEnvCooperates`,
`WebSocketRuns.PunctualServersExist` and `PniDistribution.CountingIsFair`.

Each file holds one module. Code that changes state in the crate is a class or a method here, proved
against specification functions; the theorems are about those functions, about single steps of a state
machine, or about all runs of one.

| files | subject |
|---|---|
| `SessionLocks`, `SessionProtocol`, `SessionOutcomes` | every interleaving of sends and decrypts under the per-peer locks |
| `MessageSender`, `SendFanOut`, `SendAnswers`, `SendDetails`, `SendConvergence` | fan-out, session repair and retry of one send |
| `WebSocketWorker`, `WebSocketRuns`, `WebSocketWire`, `MessagePipe` | the multiplexer, over all runs, and the pipe behind it |
| `StorageService`, `StorageRuns` | encrypted manifests and items, several devices writing |
| `StableOrder`, `GroupOperations`, `GroupRoundTrip`, `GroupCreation` | group changes and new groups |
| `AttachmentCipher`, `ContactStream`, `UsernameLink`, `MessagePadding` | codecs and in-place buffers |
| `EnvelopeTriage`, `EnvelopeOpening`, `PreKeys`, `PniDistribution` | received envelopes, key ids, PNI keys |
| `Prelude`, `Witnesses` | options, results, bytes, decimal text; libraries that keep the assumed laws |

## Where the code differs from what is said of it

- A send to one's own account from the primary device does not always converge. When it knows no
  linked device, or when a 410 makes it drop the last session it has with one, there is nobody left to
  address and the loop gives `NoMessagesToSend`: `SendConvergence.AloneCannotWriteToItself` and
  `SendConvergence.StaleLinkedDeviceIsLost`. `SendConvergence.Convergence` gives the exact condition.
- The comment above `decrypt_in_place` (src/attachment_cipher.rs:57) says that an error leaves the
  ciphertext as it was. That holds for a MAC error, but a padding error found in decrypted blocks leaves
  those blocks (`AttachmentCipher.WhatFailureLeaves`), with an input that shows it in
  `AttachmentCipher.BadPaddingOverwrites`. `AttachmentCipher.BufferSurvivesIff` says for which inputs the
  buffer stays as it was.
- The advertised attachment size keeps 32 bits (src/sender.rs:267), so truncating to it restores exactly
  the attachments below 4 GiB: `AttachmentCipher.UploadThenDownload`.
- The check before the last-resort Kyber key (src/pre_keys.rs:278-283) fails once per cycle of ids, after
  the one-time keys and the signed key have been saved: `PreKeys.EndOfARoundFails`, with the exact
  condition in `PreKeys.AssertionHoldsIff`.
- An application request may go out under the id of the outstanding keep-alive (src/websocket/mod.rs:266-275
  and 316-351 look at the pending requests only). The first response with that id then goes to the
  request, and the keep-alive needs a second one: `WebSocketRuns.IdCollision`.
  `WebSocketRuns.TimeoutIffSilentOrClaimed` says exactly when a tick gives the socket up.
- Group creation compares a candidate's service id with the creator's, but enters the ACI of the
  candidate's credential, so the creator, or anybody else, can be entered twice:
  `GroupCreation.UncheckedCredentialDuplicatesTheCreator`. The exact conditions are
  `GroupCreation.CreatorOnceIff` and `GroupCreation.MembersAreDistinctIff`.
- A contact that announces avatar bytes is uploaded without them (src/sender.rs:316); the reader takes
  them from what follows, or panics: `ContactStream.AnnouncedAvatarEatsWhatFollows`. The upload is read
  back as it was written exactly if every announced length is zero or missing:
  `ContactStream.ReadsBackIff`.
- A linked device with a session that is listed twice gets two PNI messages with different registration
  ids, and the last but one disagrees with the map: `PniDistribution.ListedTwice`. All messages agree
  exactly if no linked device with a session is listed twice: `PniDistribution.MessagesAgreeIff`.

## Model

| member | source | states |
|---|---|---|
| SessionLocks.SessionLocks.EntryOrDefault | src/session_lock.rs:38-54 | a lookup returns the peer's lock, a fresh one only for a new peer, and never replaces or shares a lock |
| SessionLocks.ResolvedKeepsIdentity | src/session_lock.rs:27-54 | whatever the lookup does to the table, locks stay distinct and every known peer keeps its own |
| SessionProtocol.StepKeepsInv | src/session_lock.rs:28-53 | every single step of any task keeps the whole invariant of locks, loads, log and store |
| SessionProtocol.RunKeepsInv | src/session_lock.rs:27-54 | the invariant holds at every state of every interleaving, for any number of tasks and jobs |
| SessionProtocol.StepKeepsTable | src/session_lock.rs:38-48 | the lock table only grows and stays injective |
| SessionProtocol.MutualExclusion | src/cipher.rs:412-423 | two tasks never hold the same peer's sessions at once |
| SessionProtocol.StepKeepsLoads | src/cipher.rs:488-511 | what a holder loaded is still what is stored, in spite of the yield point |
| SessionProtocol.NothingBetweenLoadAndStore | src/sender.rs:652-659 | while a holder does not move, no step of anyone changes that peer's sessions |
| SessionProtocol.NoInterleaving | src/cipher.rs:935-963 | no other job's store falls between two stores of one job on the same peer |
| SessionProtocol.NoLostUpdate | src/session_lock.rs:1-26 | the final store is the serial execution of the completed ratchet cycles, each once, jobs on a peer in one piece |
| SessionProtocol.ReplayIsPerPeer | src/session_lock.rs:27-54 | in the serial execution a peer's sessions depend on that peer's cycles alone |
| SessionProtocol.PeersAreIndependent | src/session_lock.rs:27-54 | so they do after any concurrent run |
| SessionProtocol.FinishedJobsTookEffect | src/sender.rs:652-659 | no cycle of a job that ran to its end is missing from the store |
| SessionProtocol.StableLockIdentity | src/session_lock.rs:38-54 | over any stretch of a run every later lookup of a peer finds the same lock |
| SessionProtocol.Progress | src/session_lock.rs:38-54 | deadlock freedom: in a reachable state with unfinished work some task can go on without giving up |
| SessionProtocol.EveryRunEnds | src/sender.rs:404-446 | runs are bounded, and a run that can go no further has finished every task |
| SessionOutcomes.WhatAStepEnds | src/sender.rs:404-446 | a step ends at most one job, the current one of whoever moves: finished, failed, or given up with all that follow |
| SessionOutcomes.EveryJobEnds | src/sender.rs:404-446 | when nothing can move any more a job has run to its end if and only if its task neither failed in it nor was cancelled by then |
| SessionOutcomes.AllWorkIsDone | src/session_lock.rs:27-54 | if nobody fails or is cancelled, the log holds exactly the cycles of all jobs of all tasks |
| SessionOutcomes.StoresInProgramOrder | src/cipher.rs:488-511 | each task's stores take effect in the order of its jobs and cycles |
| MessageSender.MessageSender.CreateEncryptedMessage | src/sender.rs:1074-1163 | key fetch, key agreement and encryption for one device, with its errors and its effect on the sessions |
| MessageSender.MessageSender.CreateWithRetry | src/sender.rs:1001-1045 | two tries at a device with the session deleted in between |
| MessageSender.MessageSender.CreateEncryptedMessages | src/sender.rs:964-1064 | the fan-out of one attempt, from an unordered device set |
| MessageSender.MessageSender.Handle | src/sender.rs:698-797 | the reaction to each answer of the server: accepted, 401, 409, 410 and the rest |
| MessageSender.MessageSender.TrySendContent | src/sender.rs:642-801 | the loop refines the recursive specification that the results below are about |
| MessageSender.FanOutStops | src/sender.rs:995-1064 | an error at one device is the error of the whole fan-out |
| SendFanOut.MessageForOutcome | src/sender.rs:1001-1045 | a device is left out exactly when both tries end in a missing session, and a message is for the device asked for |
| SendFanOut.FanOutExact | src/sender.rs:995-1064 | messages go to distinct devices of the list, to all but those that failed twice |
| SendFanOut.AttemptAddressesTargets | src/sender.rs:972-994 | every attempt addresses primary and sub-devices minus the sending device, and all of them unless one failed twice |
| SendFanOut.RoundSubmitsAtMostOnce | src/sender.rs:663-713 | one pass submits at most once, never an empty list, on the socket it chose |
| SendFanOut.SocketsOverARun | src/sender.rs:663-801 | unidentified access once dropped is never used again, and the result names the socket of the accepted submission |
| SendAnswers.LastAnswerDecides | src/sender.rs:698-797 | over a whole run every answer but the last asked for another try, and a final last answer is the outcome: a success with what the server said of it, a 401 on the identified socket, a challenge, an unregistered recipient or any other error as itself |
| SendAnswers.SuccessIsTheServers | src/sender.rs:698-707 | a success reports the socket and the need for a transcript of the accepted submission |
| SendDetails.WhenAMessageIsMade | src/cipher.rs:640-752 | exactly when a message can be made, that the ratchet moves once for it and no other session changes, and the error otherwise |
| SendDetails.WhenThereIsNoSession | src/sender.rs:1091-1149 | without a session a message takes a key fetch and an agreement with every bundle but our own, each failure with its error |
| SendDetails.OnlyToAKnownIdentity | src/sender.rs:1046-1064 | nothing is submitted while the identity of the recipient is not known |
| SendDetails.DropsAllOrFails | src/sender.rs:714-727 | sessions are dropped exactly as asked, unless the store fails |
| SendDetails.CreatesAllOrFails | src/sender.rs:729-761 | sessions are created under the registrations fetched, or the first fetch or agreement that fails is the error |
| SendDetails.EveryErrorHasItsCause | src/sender.rs:642-801 | whatever a send fails with, something answered from outside says so, and running out of tries means that all were used |
| SendConvergence.MessageForWorks | src/sender.rs:1091-1149 | against an honest server a repairable device gets its message, with the registration it should have |
| SendConvergence.FanOutAborts | src/sender.rs:1091-1149 | a corrupt session with a device the account no longer has ends the send with NotFound |
| SendConvergence.RoundMismatched | src/sender.rs:714-761 | after one 409 and its repair exactly the expected devices are addressed |
| SendConvergence.RoundMatched | src/sender.rs:698-776 | with the right devices a pass succeeds, or a 410 drops exactly the stale sessions |
| SendConvergence.PassAdvances | src/sender.rs:664-797 | each pass over a deliverable send submits once; it ends the send, or leaves settled sessions that need at most three submissions, one less than before if they were settled already |
| SendConvergence.ExactlyNeeded | src/sender.rs:663-801 | from settled sessions, for every bound: a deliverable send succeeds if and only if the bound reaches what the sessions need, and takes exactly that many submissions |
| SendConvergence.FreshSucceeds | src/sender.rs:663-797 | with up-to-date sessions only, two submissions are enough |
| SendConvergence.Convergence | src/sender.rs:663-801 | a send to an honest server, identified or with an accepted access key, succeeds within four submissions if and only if it is deliverable, with the exact error otherwise |
| SendConvergence.RejectedKey | src/sender.rs:708-713 | with a rejected access key it succeeds if and only if it is deliverable and the sessions left need at most three more; the number of submissions and the error are exact |
| SendConvergence.SendsToOthersConverge | src/sender.rs:663-801 | a send to anyone else, or from a linked device, with working sessions always goes through, over either socket |
| SendConvergence.ThreeAreNotEnough | src/sender.rs:663-664 | a send that needs 409, 410, 409 fails with a bound of three |
| SendConvergence.BoundIsTight | src/sender.rs:663-801 | the same send takes all four, and fails when a rejected access key costs one more |
| SendConvergence.HonestEnvCooperates | src/sender.rs:663-801 | the assumptions about the server can be met, for every account and caller, with an accepted key and with a rejected one |
| SendConvergence.AloneCannotWriteToItself | src/sender.rs:675-678 | a primary without linked devices has nobody to write to |
| SendConvergence.StaleLinkedDeviceIsLost | src/sender.rs:762-776 | a primary whose one linked device is stale loses it to the 410 and cannot write to itself |
| WebSocketWorker.SignalWebSocketProcess.NextRequestId | src/websocket/mod.rs:266-275 | the first drawn id that no pending request has |
| WebSocketWorker.SignalWebSocketProcess.OnKeepAliveTick | src/websocket/mod.rs:286-314 | the timer arm: give up on an unanswered keep-alive, else send a new one |
| WebSocketWorker.SignalWebSocketProcess.OnNextRequest | src/websocket/mod.rs:316-351 | the request arm: a fresh id, the pending table and the socket |
| WebSocketWorker.SignalWebSocketProcess.ProcessFrame | src/websocket/mod.rs:166-264 | every kind of frame, with what it completes, hands on or ends |
| WebSocketWorker.SignalWebSocketProcess.OnClose | src/websocket/mod.rs:353-387 | a close frame and the reason it records |
| WebSocketWorker.SignalWebSocketProcess.OnOutgoingResponse | src/websocket/mod.rs:388-409 | a consumer's answer goes out once, a dropped responder not at all |
| WebSocketRuns.ExactlyOnce | src/websocket/mod.rs:216-226 | accepted requests are the disjoint union of answered and pending ones, no insert overwrites a responder, every delivered response carries its request's id |
| WebSocketRuns.DeliveryComesFromAFrame | src/websocket/mod.rs:216-226 | an answer is delivered only by a frame with that wire id, to one request, which leaves the table |
| WebSocketRuns.ResolvedForGood | src/websocket/mod.rs:518-543 | once the worker has exited every request, read or unread, is resolved, and an outcome never changes |
| WebSocketRuns.AtMostOneKeepAlive | src/websocket/mod.rs:286-314 | the keep-alive set never holds two ids |
| WebSocketRuns.OneReason | src/websocket/mod.rs:157-163 | a disconnect reason is recorded at most once, as the worker stops |
| WebSocketRuns.TimeoutExactlyAtAnUnansweredTick | src/websocket/mod.rs:286-295 | KeepaliveTimeout appears exactly at a tick that finds a keep-alive outstanding |
| WebSocketRuns.TimeoutIffUnanswered | src/websocket/mod.rs:227-314 | and one is outstanding exactly when the previous tick's was sent and no frame answered it since |
| WebSocketRuns.PendingIffClaimed | src/websocket/mod.rs:266-275 | since a tick drew an id, it belongs to a pending request exactly when an application request took it and has had no response |
| WebSocketRuns.TimeoutIffSilentOrClaimed | src/websocket/mod.rs:216-314 | a tick gives the socket up exactly when every response frame with the last keep-alive's id, if any came, went to a request that had taken that id |
| WebSocketRuns.NoTimeoutWhenAnswered | src/websocket/mod.rs:277-314 | a server that sends a response to each keep-alive before the next tick is never dropped, while no request goes out under an outstanding keep-alive's id |
| WebSocketRuns.PunctualServersExist | src/websocket/mod.rs:277-314 | runs of any length in which the server does so |
| WebSocketRuns.IdCollision | src/websocket/mod.rs:316-335 | a run in which a request takes the keep-alive's id: one response with that id is not enough, a second one is |
| WebSocketRuns.ReasonSaysWhatHappened | src/websocket/mod.rs:157-163 | the reason a stopped worker holds is that of the event at which it stopped |
| WebSocketRuns.ServerRequests | src/websocket/mod.rs:201-212 | server requests reach the consumer in frame order, each with at most one response |
| WebSocketWire.RequestsGoOutUnderTheirIds | src/websocket/mod.rs:316-351 | while the worker runs each request taken is on the wire exactly once, in channel order, under the id its caller waits under |
| WebSocketWire.WhichIdIsTaken | src/websocket/mod.rs:321-328 | a request goes out under its own id, or under the one drawn if it has none or that is pending |
| WebSocketWire.NoneIsLeftBehind | src/websocket/mod.rs:316-351 | the end of the application's requests comes after every one of them went out |
| WebSocketWire.KeepAlivesGoOut | src/websocket/mod.rs:286-314 | a tick with nothing outstanding puts a keep-alive on the wire under exactly the id then outstanding, and nothing else does |
| WebSocketWire.AnswersGoOut | src/websocket/mod.rs:388-409 | a consumer's answer goes out unchanged, one never given sends nothing |
| WebSocketWire.AwaitedAreTheUnsettled | src/websocket/mod.rs:388-409 | answers are awaited for exactly the requests handed on and neither answered nor dropped yet |
| WebSocketWire.RunsUntilStopped | src/websocket/mod.rs:166-411 | the worker runs until the first of the events that stop it, all of them listed, and ends cleanly or with an error as that event says |
| MessagePipe.MessagePipe.Run | src/messagepipe.rs:49-82 | the drain loop and its end refine the specification |
| MessagePipe.MessagePipe.ProcessRequest | src/messagepipe.rs:84-115 | decode first, respond next, and only then yield |
| MessagePipe.DrainIsOk | src/messagepipe.rs:49-115 | items and responses come from distinct requests in arrival order and say what those carried |
| MessagePipe.YieldedIffAcknowledged | src/messagepipe.rs:84-115 | what is yielded was acknowledged with a 200, and only the request at which the consumer left can be acknowledged without being yielded |
| MessagePipe.LivePipe | src/messagepipe.rs:49-115 | with a live consumer an envelope or queue-empty marker is yielded if and only if its request got a 200 |
| MessagePipe.EveryRequestGetsItsDue | src/messagepipe.rs:62-115 | whoever leaves when, a request is answered if and only if the worker listens and no envelope is missing from it, yields what it carries if answered and taken, and else its first failure |
| MessagePipe.EveryRequestIsServed | src/messagepipe.rs:62-115 | the same for a consumer that stays, in terms of the requests alone |
| MessagePipe.DrainsUntilRefused | src/messagepipe.rs:62-69 | draining stops exactly at an item that nobody takes |
| MessagePipe.DisconnectedOnceAndLast | src/messagepipe.rs:72-81 | Disconnected comes once and last, exactly on a pipe that held the receiver and whose consumer stayed |
| MessagePipe.DisconnectedTellsWhy | src/messagepipe.rs:72-79 | and it carries the reason of the event at which the worker stopped, or Transport where that recorded none |
| MessagePipe.ResponsesOnTheWire | src/proto.rs:37-53 | every response the worker writes is the one made from the request that arrived at that position |
| StorageService.Encrypt | src/storage_service.rs:455-477 | the blob laid out in place decrypts to the plaintext |
| StorageService.DecryptSealed | src/storage_service.rs:441-451 | splitting off the IV undoes the sealing |
| StorageService.ManifestRoundTrip | src/storage_service.rs:348-367 | a manifest decrypts under the version it carries |
| StorageService.ManifestsAreShared | src/storage_service.rs:348-409 | a manifest is IV, ciphertext and tag under the HMAC of "Manifest_" and the decimal version, written so and read so |
| StorageService.ManifestReadsIff | src/storage_service.rs:348-360 | a manifest is read exactly if it has a whole IV, opens under the key of its version and decodes |
| StorageService.ItemsMatchTheirManifest | src/storage_service.rs:319-343 | every item of a write decrypts under that manifest's ikm, an empty one meaning the legacy key |
| StorageService.ItemsAreShared | src/storage_service.rs:372-440 | an item is so under HKDF with the prefix and the raw id, or without an ikm, or with an empty one, under the HMAC of "Item_" and its base64 |
| StorageService.ItemReadsIff | src/storage_service.rs:372-384 | an item is read exactly if it has a whole IV, opens under its key and decodes |
| StorageService.KeyMessagesDiffer | src/storage_service.rs:402-440 | no two versions share a key message, nor a manifest and an item |
| StorageService.OneBadItemFailsTheRead | src/storage_service.rs:243-248 | a read returns every item in order, or the failure of the first that fails |
| StorageRuns.AcceptedIffUpToDate | src/storage_service.rs:250-310 | a write is accepted exactly when its author had seen the latest manifest, and a conflict changes nothing |
| StorageRuns.NothingSilentlyDiscarded | src/storage_service.rs:250-271 | an accepted write keeps the ikm and every identifier except those it deletes |
| StorageRuns.FirstWriteIsItsAuthors | src/storage_service.rs:252-262 | the first manifest of an account is version 1, with the ikm and the items of its author |
| StorageRuns.SyncThenWrite | src/storage_service.rs:252-262 | after a conflict a device that syncs first has its next write accepted |
| StorageRuns.StoredUnder | src/storage_service.rs:319-343 | what a batch leaves stored under an identifier |
| StorageRuns.WriteKeepsManifest | src/storage_service.rs:348-367 | an accepted write leaves a manifest that decrypts to what its writer meant |
| StorageRuns.WriteKeepsItems | src/storage_service.rs:370-437 | and items that all decrypt under it, the kept ones included |
| StorageRuns.RunKeepsInv | src/storage_service.rs:250-343 | over every run of any number of racing devices the stored manifest and everything it lists stay readable |
| StorageRuns.FetchedItemsDecrypt | src/storage_service.rs:218-248 | every item of an answer, in whatever order, decrypts to the bytes supplied under its key |
| StorageRuns.EverythingListedIsReadable | src/storage_service.rs:218-355 | after any run a reader that matches items by key finds every listed identifier with exactly what its writer supplied |
| StorageRuns.BumpingTheVersionDiscards | src/storage_service.rs:252-262 | a body whose version is bumped after a conflict is accepted, and the manifest then stored has lost exactly what only the other device inserted |
| StableOrder.OrderIsStable | src/groups_v2/operations.rs:772-797 | joining the kinds in order loses, doubles and reorders nothing within a kind |
| StableOrder.OrderIsSorted | src/groups_v2/operations.rs:772-797 | and puts the kinds in that order |
| GroupRoundTrip.BlobRoundTrip | src/groups_v2/operations.rs:312-365 | an attribute blob reads back as written |
| GroupRoundTrip.LabelRoundTrip | src/groups_v2/operations.rs:278-389 | a label reads back as written, an empty one as None |
| GroupRoundTrip.PresentationRoundTrip | src/groups_v2/operations.rs:156-185 | ACI and profile key come back the same from the plain fields and from a presentation |
| GroupRoundTrip.BuiltActionDecodes | src/groups_v2/operations.rs:581-770 | entries of all 25 kinds, by every builder or written by another client, are read as what their author meant, in the right field |
| GroupRoundTrip.NotAciIff | src/groups_v2/operations.rs:96-249 | an entry is refused for not naming an ACI if and only if a PNI stands where an ACI is called for: as an id, inside a presentation, or as the inviter |
| GroupRoundTrip.OutOfRangeIsRefused | src/groups_v2/model.rs:228-272 | wherever an entry holds a role or an access level a number out of range is refused |
| GroupRoundTrip.EnumerationsIff | src/groups_v2/model.rs:228-272 | exactly the numbers of a role or an access level are read, each as itself |
| GroupRoundTrip.LabelsNeverFail | src/groups_v2/operations.rs:201-310 | labels never change whether a member decodes, and each is read by itself |
| GroupRoundTrip.PniPromotionDecodes | src/groups_v2/operations.rs:187-199 | a promotion decodes to its ACI and PNI, and is refused with the right error when either is of the other kind |
| GroupRoundTrip.FieldDecodes | src/groups_v2/operations.rs:581-770 | entries of one kind decode one for one, in order |
| GroupRoundTrip.GroupChangeRoundTrip | src/groups_v2/operations.rs:545-808 | any list of actions sent by an editor decodes to that editor, the derived group id, the version, and the meanings in chain order |
| GroupRoundTrip.AssembledIsWellFormed | src/groups_v2/operations.rs:557-588 | a list of actions fits the message exactly if it puts at most one in each optional field |
| GroupRoundTrip.ChangesAreStablySorted | src/groups_v2/operations.rs:772-797 | those changes are the stable sort of the meanings by the decoder's chain |
| GroupRoundTrip.CollectAllOrFirst | src/groups_v2/operations.rs:772-797 | collecting keeps all entries in order or reports the first failure |
| GroupRoundTrip.DecodesIff | src/groups_v2/operations.rs:545-808 | any change, whoever made it, is refused exactly for a bad message, editor, group id or action |
| GroupRoundTrip.DecodedAsSent | src/groups_v2/operations.rs:545-808 | editor, group, version, epoch and entries of a decoded change are those of its message and envelope |
| GroupRoundTrip.RefusedForTheFirstWrong | src/groups_v2/operations.rs:545-808 | a refused change fails with the first thing wrong: message, editor, group id, first bad entry |
| GroupCreation.EncryptGroupWithCredentials | src/groups_v2/operations.rs:1064-1187 | the group built in one pass over the candidates decodes to the group asked for |
| GroupCreation.MembersDecode | src/groups_v2/operations.rs:1079-1122 | the member list reads back as the creator and then each credentialed candidate |
| GroupCreation.PendingDecode | src/groups_v2/operations.rs:1123-1142 | the invitations read back for exactly the candidates without a credential |
| GroupCreation.CreatedGroupDecodes | src/groups_v2/operations.rs:476-543 | the decoder reads the created group as the group asked for |
| GroupCreation.EachHasItsDraw | src/groups_v2/operations.rs:1064-1180 | every attribute and presentation of a created group is made with randomness of its own |
| GroupCreation.AnyGroupReads | src/groups_v2/operations.rs:476-543 | any group is read exactly if every entry of all its lists and its access control are, in order, with its attributes |
| GroupCreation.WhoIsWhere | src/groups_v2/operations.rs:1098-1143 | members after the creator and invitations are the entering and the invited candidates, each in order |
| GroupCreation.CreatorLeads | src/groups_v2/operations.rs:1079-1106 | the creator is the first member and only administrator, and never invited |
| GroupCreation.CreatorOnceIff | src/groups_v2/operations.rs:1092-1106 | the creator is in the group once if and only if no candidate enters under the creator's ACI |
| GroupCreation.MembersAreDistinctIff | src/groups_v2/operations.rs:1092-1122 | nobody is a member twice if and only if, besides, no two candidates enter under one ACI |
| GroupCreation.EveryCandidateHasAnEntry | src/groups_v2/operations.rs:1099-1143 | every candidate other than the creator is a member or invited, and nobody else is |
| GroupCreation.UncheckedCredentialDuplicatesTheCreator | src/groups_v2/operations.rs:1098-1122 | a request whose created group decodes to one with its creator twice |
| AttachmentCipher.CbcDecryptEncrypt | src/attachment_cipher.rs:39-44 | CBC decryption undoes encryption |
| AttachmentCipher.CbcEncryptDecrypt | src/attachment_cipher.rs:79-85 | and encryption undoes decryption, on whole blocks |
| AttachmentCipher.UnpadPad | src/attachment_cipher.rs:41-46 | PKCS#7 padding is a whole number of blocks and comes off again |
| AttachmentCipher.PadUnpad | src/attachment_cipher.rs:81-83 | only proper padding comes off |
| AttachmentCipher.EncryptInPlace | src/attachment_cipher.rs:23-53 | the buffer ends as iv, CBC of the padded plaintext and MAC, 16 + 16 * (n / 16 + 1) + 32 octets |
| AttachmentCipher.DecryptInPlace | src/attachment_cipher.rs:59-94 | outcome and remaining buffer for every input, shorter than a MAC included |
| AttachmentCipher.OpenSealed | src/attachment_cipher.rs:23-94 | decryption restores the plaintext |
| AttachmentCipher.OpensIffSealed | src/attachment_cipher.rs:59-94 | decryption succeeds on the outputs of encryption and on nothing else |
| AttachmentCipher.OutcomeIff | src/attachment_cipher.rs:59-94 | which buffers panic, fail the MAC, fail the padding or decrypt, exactly |
| AttachmentCipher.WhatFailureLeaves | src/attachment_cipher.rs:55-88 | a MAC error leaves the buffer alone; a padding error leaves exactly the decrypted blocks in its middle |
| AttachmentCipher.BufferSurvivesIff | src/attachment_cipher.rs:55-94 | the buffer stays as it was if and only if nothing is decrypted, or the blocks are badly padded and each decrypts to itself |
| AttachmentCipher.BadPaddingOverwrites | src/attachment_cipher.rs:55-88 | a buffer with a good tag and bad padding that is overwritten |
| AttachmentCipher.PadAndEncrypt | src/sender.rs:204-237 | zero padding to any length before encryption, and the 32-bit size |
| AttachmentCipher.UploadThenDownload | src/sender.rs:204-267 | the attachment comes back if and only if its length fits 32 bits |
| AttachmentCipher.UploadRoundTrip | src/sender.rs:218-237 | for every padded length, the decrypted attachment starts with the original |
| ContactStream.VarintRoundTrip | src/receiver.rs:121-124 | every 64-bit length prefix reads back, whatever follows it |
| ContactStream.VarintIff | src/receiver.rs:121-124 | a prefix is read if and only if it is at most ten groups of seven bits that stand for a number of 64 bits |
| ContactStream.WhatAContactSays | src/models.rs:46-82 | what a record says is kept, what it does not say is empty or zero, and an avatar needs bytes and a content type |
| ContactStream.UploadContactDetails | src/sender.rs:304-317 | the upload is the concatenation of the delimited contacts |
| ContactStream.DeviceContactsIterator.Step | src/receiver.rs:114-137 | one call of next, the panic included; every Some shrinks the buffer |
| ContactStream.EntriesRoundTrip | src/receiver.rs:114-137 | any list of contacts with the avatar bytes they announce is read back in order, and reading goes on behind it |
| ContactStream.PaddingReadsAsMissing | src/receiver.rs:114-137 | each zero byte of padding reads as one MissingUuid |
| ContactStream.ContactsRoundTrip | src/sender.rs:311-318 | what is uploaded without announced bytes and padded with k zeros reads back as the contacts and then k errors |
| ContactStream.ReadsBackIff | src/sender.rs:311-318 | the reader makes its items from the records as written if and only if no contact announces a nonzero avatar length, and then yields what was written and stops with nothing left |
| ContactStream.AnnouncedAvatarEatsWhatFollows | src/receiver.rs:126-136 | wherever the first contact that announces bytes stands, it takes them from what follows, or the reader panics if there is less |
| ContactStream.StolenAvatarShows | src/receiver.rs:126-136 | if that contact has an id and a content type, and announces at least one byte, the items read are wrong |
| ContactStream.CodecsExist | src/sender.rs:311-315 | for whatever is to be written there is a codec as assumed |
| UsernameLink.DecodeEncode | src/websocket/usernames.rs:183-183 | URL-safe base64 decodes what it encoded |
| UsernameLink.EncodeDecode | src/websocket/usernames.rs:183-183 | and nothing else: no byte string has two spellings |
| UsernameLink.CharsAreRfc4648 | src/websocket/usernames.rs:188-188 | the alphabet is that of table 2 of RFC 4648 |
| UsernameLink.SameBits | src/websocket/usernames.rs:188-188 | three octets and their four characters are the same 24 bits |
| UsernameLink.SplitPair | src/websocket/usernames.rs:166-179 | two segments put together with a slash are the fragment |
| UsernameLink.Generate | src/websocket/usernames.rs:259-270 | the generated link parses to the handle and entropy it was made from |
| UsernameLink.ParsesIff | src/websocket/usernames.rs:148-198 | a link parses to these parts if and only if its scheme, host and fragment are those of the link generated from them, whatever its port, path and query |
| UsernameLink.WhyItDoesNotParse | src/websocket/usernames.rs:149-202 | for each error exactly the links that fail with it |
| UsernameLink.LinksAreDistinct | src/websocket/usernames.rs:259-270 | different handles or entropies have different links |
| UsernameLink.OnlyFullPayloadsParse | src/websocket/usernames.rs:166-197 | with the right base and marker exactly the well-formed payloads of 64 characters parse |
| MessagePadding.AddPadding | src/cipher.rs:757-778 | per version: an error, the contents, or content, 0x80 and zeros up to a multiple of 160 |
| MessagePadding.PaddedLengthIsLeast | src/cipher.rs:763-770 | that multiple is the least one strictly above the length |
| MessagePadding.Contents.StripPadding | src/cipher.rs:797-801 | the backward scan finds the terminator, and a failure leaves the buffer |
| MessagePadding.Contents.StripPaddingVersion | src/cipher.rs:781-795 | stripping by session version |
| MessagePadding.PadThenStrip | src/cipher.rs:757-801 | stripping what was padded under the same version restores it |
| MessagePadding.UnpadIff | src/cipher.rs:797-801 | stripping recovers a content from exactly its paddings |
| MessagePadding.StripFailsIff | src/cipher.rs:797-801 | it fails exactly when, past trailing zeros, the last octet is missing or not 0x80 |
| EnvelopeTriage.OpenedContentIsTrustworthy | src/cipher.rs:147-234 | an opened content has an ACI sender and our id as destination; sync messages are from our ACI to itself; plaintext carries only a decryption error; a receipt is due only for a sealed envelope without a source |
| EnvelopeTriage.DecryptedPayload | src/cipher.rs:417-605 | what each envelope type says of sender, plaintext, sealing and receipt |
| EnvelopeTriage.PanicsIff | src/cipher.rs:417-490 | the expectation of a source id fails exactly for the three identified types without one, addressed to our ACI |
| EnvelopeOpening.DecryptsIff | src/cipher.rs:320-617 | an envelope decrypts to these data and this message if and only if they were so wrapped: by kind, padding, address, signature and times |
| EnvelopeOpening.OpensIff | src/cipher.rs:147-234 | the application is handed a content if and only if it was so sent and is welcome, sender key stored included |
| EnvelopeOpening.DropsIff | src/cipher.rs:147-234 | an envelope is dropped in silence if and only if it has no content, or is readable with no body or an unwelcome one |
| EnvelopeOpening.ErrorsHaveCauses | src/cipher.rs:320-617 | every error has its cause in the envelope or in what a library answered |
| EnvelopeTriage.HonestMessageOpens | src/cipher.rs:488-628 | a padded message over a session comes out as sent, unless it is somebody else's sync message |
| EnvelopeTriage.HonestSealedMessageOpens | src/cipher.rs:536-628 | so does one under sealed sender, with the certificate's sender |
| PreKeys.PreKeysStore.Replenish | src/pre_keys.rs:187-308 | everything returned is saved, under the ids of the cycle, and what is left when the check fails |
| PreKeys.IdsInRange | src/pre_keys.rs:216-218 | ids lie between 1 and 0xFFFFFE whatever the offset |
| PreKeys.IdsAreConsecutiveIff | src/pre_keys.rs:214-237 | each id is the cyclic successor of the one before, except exactly where the sum wraps at 32 bits: there 1 follows 512 |
| PreKeys.IdsAreDistinctIff | src/pre_keys.rs:214-237 | a batch has pairwise distinct ids if and only if it is no longer than the cycle, or than 512 when the sum wraps within it |
| PreKeys.LastResortIsFreshIff | src/pre_keys.rs:272-276 | the last-resort id differs from the one-time ids if and only if they do not fill the cycle, with the exact exception past the wrap |
| PreKeys.AssertionHoldsIff | src/pre_keys.rs:278-283 | the inner check holds if and only if the batch is empty or offset + count, in 32 bits, is no multiple of 0xFFFFFE |
| PreKeys.EndOfARoundFails | src/pre_keys.rs:278-283 | one key under the last id of a round makes it fail |
| PreKeys.ReturnedAreSavedIff | src/pre_keys.rs:214-251 | every returned record is what the store has under its id if and only if no id was used for two different keys |
| PreKeys.ReturnedAreSaved | src/pre_keys.rs:214-251 | in particular for every batch no longer than the ids allow |
| PniDistribution.FreeIdExists | src/provisioning/mod.rs:129-133 | some registration id is free, since device ids are bytes and there are 16379 ids |
| PniDistribution.FreeRegistrationId | src/account_manager.rs:805-810 | the rejection loop ends, with the first id drawn that nobody has |
| PniDistribution.TurnKeepsGood | src/account_manager.rs:754-870 | one turn of the loop keeps the maps aligned, the ids distinct and the messages in order |
| PniDistribution.InitializeDevices | src/account_manager.rs:713-870 | the three maps have the primary and each linked device with a session as keys, ids are pairwise distinct, messages follow the list and carry the keys drawn at their turns, the primary's keys are those in the PNI store, the last message to a device says what the maps say, each further one to the same device has another registration id, and it is the first message that cannot be encrypted that ends the loop |
| PniDistribution.MessagePerEntry | src/account_manager.rs:832-870 | apart from the primary a device has an entry if and only if it gets a message |
| PniDistribution.MessagesAgreeIff | src/account_manager.rs:813-870 | every message says what the maps say if and only if no linked device with a session is listed twice |
| PniDistribution.ListedTwice | src/account_manager.rs:754-870 | a device listed twice, and the first of its messages disagreeing with the maps |
| PniDistribution.CountingIsFair | src/provisioning/mod.rs:129-133 | a source of registration ids as assumed exists |
| Prelude.DecimalInjective | src/account_manager.rs:813-813 | different device ids have different map keys |
| Prelude.DecimalIsDecimal | src/storage_service.rs:402-409 | the decimal text of a number has digits that stand for it, and no leading zero |
| Witnesses.ParamsExist | src/groups_v2/operations.rs:1379-1394 | for every change there are group params and codecs as assumed |
| Witnesses.LibrariesExist | src/storage_service.rs:348-477 | there are libraries as the storage service assumes them |

## Left out

- The insides of ciphers, key agreement, the Double Ratchet, zkgroup, HPKE, HMAC and HKDF: functions with inverse laws stand for them.
- Protobuf and JSON bodies: decoding is assumed to undo encoding. Only the varint length prefix of the contact stream and the presence of fields are modelled.
- HTTP, TLS, CDN upload and download, registration, profiles, contact discovery and status-code tables: plumbing, or one branch each.
- The unlocked `create_encrypted_message` call in `pnp_initialize_devices` (src/account_manager.rs:861-868) and the unlocked fallback for non-canonical certificate ids (src/cipher.rs:944-950): the lock theorems cover `try_send_content` and the locked decrypt paths only.
- Fairness among waiters of one session lock: `SessionProtocol.Progress` and `EveryRunEnds` show that somebody can always move and that runs end, not in which order waiters are served.
- Store errors other than those of deleting a session, and identity-key saving during encryption.
- The bracket formula for the padded length of attachments (src/sender.rs:218-225) uses floating point: the padded length is an arbitrary number here, and no result depends on it.
- Wrap-around of the 64-bit manifest version, and `clear_all` writes beyond what the server does with them.
- The retry counter of `retrieve_contacts`, and the position of the contact iterator after a malformed record: the iterator has then returned None.
- The parsing of UUIDs, phone numbers, service ids and URLs into their parts: the parts are given.
- The verification of PNI signatures and the bookkeeping of sender keys: oracles in `EnvelopeTriage`.
- The PNI messages' other contents (identity key, phone number, random padding), and the upload that follows the loop.
- SessionProtocol.EveryRunEnds: counts steps of tasks with finite job lists, not wall-clock time.
- StorageRuns.RunKeepsInv: assumes that writers list what they mean to keep and never insert and delete one identifier in the same write, as the documentation of `write_items` asks of callers.
- Debug builds: sums of pre-key ids wrap at 32 bits here, as in a release build, where a debug build would panic.
- PniDistribution.FreeRegistrationId: termination rests on every registration id turning up again in the random draws.
- GroupRoundTrip.GroupChangeRoundTrip: that the message decodes is assumed of the one message sent, and the fields of the actions message are kept in one map by kind, each entry in the field of its kind, where the message has 25 typed fields.
- MessageSender.MessageSender.CreateEncryptedMessage: sessions are reduced to their registration id, their usability and a counter, and a message to its device and registration; errors of the session store and the lookup of the preferred address, which picks the address used anyway, are not modelled.
- PreKeys.PreKeysStore.Replenish: a store call or a key generation that fails ends the call with that error and what was saved before it; only the failure of the inner check is modelled.
- GroupRoundTrip.NotAciIff: assumes that zkgroup's own errors are not the decoder's `NotAci`.
