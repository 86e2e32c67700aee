# Netherchat, verified

A Dafny model of the parts of Netherchat that evidence rests on, and proofs about every run of them:
who may trigger a destructive action, who writes an approved artifact into the record, what a seal,
a roster or a receipt proves to somebody who holds nothing but the file, what an identity verdict
depends on, and what a shutdown or a file transfer may lose.

The files, from the bottom up:

| files | what they hold |
|---|---|
| `Bytes`, `Framing`, `Layouts`, `Statements`, `SigningBytes` | byte order and sorting; length-prefixed framing; the sixteen signing layouts, their decoder, and the buffer-writing functions |
| `Crypto` | Ed25519, SHA-256, base64, hex, time parsing and the SSH fingerprint as function values, and the named hypotheses about them |
| `Actions`, `ActionProofs`, `ActionRuns`, `ActionLaws`, `ActionTexts`, `ActionClient` | the Two-Person Rule |
| `Artifacts`, `ArtifactProofs`, `ArtifactRuns`, `ArtifactWriters`, `ArtifactRaces`, `ArtifactOutcomes`, `ArtifactClient` | artifact approval and the designated writer |
| `Records`, `Sealing`, `SealRounds`, `SealRuns`, `SealClient`, `RecordEvidence`, `RecordVerifier`, `SealedApprovals`, `DoubleWrites` | the record chain, the seal handshake with late amendment, the offline record verifier, and what a double write does to it |
| `Cosigning`, `Rosters`, `RosterRuns`, `RosterClient`, `Receipts`, `ReceiptClient` | co-signature rounds, rosters, scuttle receipts and their verifiers |
| `Identity`, `IdentityLaws`, `IdentityVerifier`, `Display` | identity attestations, revocation, and how an attribution is drawn |
| `Closing`, `Outbox` | shutdown accounting |
| `Files`, `FileReceiver`, `FileWindow` | chunking, reassembly and flow control |
| `CliArgs` | the permuting argv parser |

How it is built. A handler's locked section is one step. Timers and other goroutines are steps that
may come at any time, so every interleaving is a run; where the program releases the lock between a
check and its use, the two are separate steps. A protocol is a transition function over a value
(`Apply`), a run is a sequence of enabled steps, and the theorems quantify over all of them and over
any number of clients. Code that updates fields is also written as a class; a method that is one locked section is
proved to make exactly one of those transitions, and one that spans several (a drain, a whole close)
a run of them, so the theorems about runs are theorems about the methods. Signatures are an abstract sign and verify pair with a log of what each key signed: the
environment may present any signature that verifies only over messages its key signed. Facts that
rest on SHA-256 are stated as "equal, or here are two inputs with one digest". Fields that only record
history (what was emitted, seen, signed) are part of the state values and say so.

What the proofs found in the code, each with the exact condition and a concrete run or input:

- "No double-write": every run has at most one entry per proposal if and only if the room is no larger
  than the quorum (`ArtifactRaces.OneWriterExactly`); in a larger one there is a run with two writers
  (`TwoMembersWrite`). Redelivery of a resolved proposal, or reuse of its id, breaks it too
  (`RedeliveryWritesTwice`, `ReusedIdCountsStaleApproval`).
- "No 'nobody writes' race": in every run in which no more members approve than the quorum, somebody has
  written if and only if the client with the least fingerprint of the approvers saw the quorum reached
  (`ArtifactOutcomes.SomeoneWritesExactly`). Over whole rooms, a proposal that somebody saw reach its
  quorum is written in every run if and only if the room has at most one member or too few for the quorum
  (`SomeoneAlwaysWritesExactly`): otherwise the proposal may expire at the least member alone
  (`ExpiryLeavesNoWriter`). Even if everybody counts everything, somebody is elected under every
  assignment of arrival orders only when the approvers are exactly quorum many
  (`ArtifactWriters.SomeoneElectedExactly`, `ArtifactRaces.NobodyWrites`).
- A sealed record that carries approval proofs is refused by the offline verifier exactly when two of
  its artifact entries name one proposal (`Sealing.AssembledVerifies`); from a fresh room, a run that
  ends with such a record is `DoubleWrites.DoubleWriteRefused`.
- The comment on `receiptDone` promises at most one receipt per client. A client issues a second one
  exactly when an open round is finalized after the latch was set (`Receipts.OneReceiptExactly`,
  `TwoReceipts`).
- `takeUnflushed` misses a frame the write loop has received from the queue but not yet passed to
  `beginSend`, and counts an in-flight frame that is then sent. At the moment it looks, the accounting
  stays exact however the run goes on if and only if the write loop has exited, has failed on the frame
  it holds, or has drained its snapshot (`Closing.ExactWhen`; the two runs are `TakenFrameIsMissed` and
  `InFlightFrameIsCountedTwice`).
- The comment in `streamChunks` says the window follows the slowest acknowledgement; the code follows
  the largest. The slowest receiver bounds the sender in every run if and only if there is at most one
  receiver or the artifact fits one window (`FileWindow.SlowestBoundsExactly`, `SlowReceiverLags`).
- `IdentityDisplayFor` says no verified row is reachable without the subject join; with no artifact
  carried and a valid result, it is (`Display.VerifiedExactly`, `NoArtifactNoJoin`).
- The comment on `cliargs.Parse` says arguments not reached before a parse error are returned. They are
  if and only if nothing follows the offending flag, and the value it refused if it took one, before the
  first "--" (`CliArgs.PromiseKeptExactly`); the line `a -x b` comes back as `a` (`LostArgument`).
- The comment on `IdentityResult.Revocation` promises one entry per supplied statement, and that an empty
  list means none was supplied. There is one entry each if and only if none was supplied, or the artifact
  is in force (well formed, signed by its issuer and a pinned key, inside its window) and every statement
  is present and verifies; the list is empty if and only if the artifact is not in force or no statement
  is present and verifies (`IdentityVerifier.OneCheckEachExactly`, stated on the result by
  `VerifyIdentity`). Inputs: a statement of another version (`UnreadableStatementUnlisted`), and a call
  after expiry with a statement that verifies (`ExpiredListsNothing`).
- The text an approver is shown does not always name one frame: two frames of one room have one text if
  and only if they are of one kind with the same printed duration and the same printed invitees
  (`ActionTexts.TextsExactly`). Invitees "a" and "b" read like one "a,b", and nobody like "no one"
  (`TextsConfused`); without a comma in a name, and with nobody alone called that, the text names the
  frame (`SameTextSameFrame`).
- An accepted file offer under a transfer id in use replaces the open transfer, which then never
  completes or fails. Every accepted offer ends or stays open if and only if no offer is accepted under an
  id in use (`Files.NoneLostExactly`); two offers of one id show it (`SecondOfferDisplaces`).
- The chunk count of a file offer is not checked. The receiver survives a sequence of arrivals if and only
  if every offer's count is one `make` accepts, so not negative (`Files.RunsOnExactly`).

## Model

| member | source | states |
|---|---|---|
| `Framing.ReadTokensRender` | protocol/signing.go:36-41 | reading back what length-prefixed fields and 8-byte words were written as recovers them and leaves the rest of the input untouched |
| `Framing.ReadTokensSound` | protocol/signing.go:36-41 | whatever the reader accepts is exactly what writing the tokens it returns would have produced |
| `Layouts.TagsDistinct` | protocol/record_signing.go:31-45 | the sixteen domain-separation tags differ pairwise as byte strings |
| `Layouts.DecodeEncodeDocument` | protocol/identity_signing.go:77-140 | every document of a known shape, counted lists and raw tails included, is recovered by the decoder |
| `Layouts.EncodeDecodeDocument` | protocol/identity_signing.go:77-140 | whatever the decoder accepts re-encodes to the same bytes |
| `Statements.DecodeEncode` | protocol/record_signing.go:31-138 | every signing layout is invertible: all fields of all sixteen statements are recovered, for all inputs whose lengths fit a uint64 and whose parallel lists have one length |
| `Statements.PreimagesDisjoint` | protocol/artifact_signing.go:22-63 | two statements of any kinds and versions share a preimage exactly when they are the same statement |
| `Statements.DecodeExact` | protocol/attest_signing.go:22-48 | a byte string decodes to a statement exactly when it is that statement's preimage |
| `SigningBytes.Buffer.WriteField` | protocol/signing.go:36-41 | appends the 8-byte big-endian length and the bytes |
| `SigningBytes.Buffer.WriteLinks` | protocol/record_signing.go:73-95 | the link loop appends every hash and relation, pairwise and in order |
| `SigningBytes.Buffer.WriteRoles` | protocol/identity_signing.go:77-97 | the role loop appends every role in the order given |
| `SigningBytes.Buffer.WriteRevoked` | protocol/identity_signing.go:121-140 | the revocation loop appends every serial, date and reason in order |
| `SigningBytes.SigningBytes` | protocol/signing.go:23-34 | builds the message statement's encoding |
| `SigningBytes.RecordSigningBytes` | protocol/record_signing.go:31-45 | builds the v1 record statement's encoding |
| `SigningBytes.RecordSigningBytesV2` | protocol/record_signing.go:73-95 | builds the v2 record statement's encoding, links counted and looped |
| `SigningBytes.SealSigningBytes` | protocol/record_signing.go:106-112 | builds the bare seal statement's encoding |
| `SigningBytes.SealSigningBytesV2` | protocol/record_signing.go:129-138 | builds the meaning-bearing seal statement's encoding |
| `SigningBytes.IdentitySigningBytes` | protocol/identity_signing.go:77-97 | builds the identity statement's encoding, roles counted and looped |
| `SigningBytes.RevocationSigningBytes` | protocol/identity_signing.go:121-140 | builds the revocation statement's encoding, entries counted and looped |
| `SigningBytes.ArtifactApprovalSigningBytes` | protocol/artifact_signing.go:22-30 | builds the artifact approval statement's encoding |
| `SigningBytes.ArtifactApprovalSigningBytesV2` | protocol/artifact_signing.go:54-63 | builds the role-typed artifact approval statement's encoding |
| `SigningBytes.ActionApprovalSigningBytes` | protocol/action_signing.go:24-32 | builds the action approval statement's encoding |
| `SigningBytes.ActionApprovalSigningBytesV2` | protocol/action_signing.go:52-63 | builds the meaning-bearing action approval statement's encoding |
| `SigningBytes.RosterSigningBytes` | protocol/attest_signing.go:22-31 | builds the roster statement's encoding |
| `SigningBytes.ScuttleReceiptSigningBytes` | protocol/attest_signing.go:43-48 | builds the receipt statement's encoding |
| `SigningBytes.AlertSigningBytes` | protocol/alert_signing.go:30-42 | builds the alert statement's encoding, with its signed 64-bit timestamp |
| `SigningBytes.DirectAuthBytes` | protocol/direct.go:30-38 | builds the direct-channel authentication statement's encoding |
| `SigningBytes.DuressBeaconSigningBytes` | protocol/duress_signing.go:26-35 | builds the duress beacon statement's encoding |
| `ActionProofs.StepKeeps` | tui/client/action.go:115-543 | every critical section of every handler keeps the client invariant: own requests are backed by genuine endorsements, callbacks and emissions are accounted for |
| `ActionRuns.GateIsSafe` | tui/client/client.go:421-536 | in every run of any number of clients, every scuttle, scuttle-arm and break-glass frame is within its sender's own policy, read at the name "scuttle" or "break_glass" and 1 without an entry: never at quorum 0, at quorum q >= 2 only over a relay and after exactly q - 1 distinct others signed this request's id, parameter hash and nonce, the request being its own and the hash that of the text naming this very frame |
| `ActionRuns.CallbackAtMostOnce` | tui/client/action.go:422-469 | in every run each request's callback ran at most once, with exactly quorum - 1 approvers |
| `ActionRuns.CallbackExactlyAtQuorum` | tui/client/action.go:422-469 | in every run each request a client issued is exactly one of: waiting with fewer than quorum - 1 approvers, given up, or released (callback called or about to be) with exactly quorum - 1 |
| `ActionLaws.GateAnswers` | tui/client/action.go:115-130 | what a gated call does at each number the policy gives: nothing at 0, its frame at 1 or less, and from 2 on nothing but an own request for that many endorsers, over a relay with a key |
| `ActionLaws.DroppedNeverFires` | tui/client/action.go:300-526 | once an own waiting request was vetoed, expired, failed to send or was vanished, no later state of any run has it waiting, due or performed, whatever is counted or arrives afterwards |
| `ActionLaws.DropTakesOut` | tui/client/action.go:472-501 | a dropped request leaves the map, every other one is untouched, nothing goes through |
| `ActionLaws.CheckPassesExactly` | tui/client/action.go:385-417 | an approval passes exactly when it names a tracked request and its hash, is by its sender, and that key signed this request's id, hash and nonce |
| `ActionLaws.ApprovalCounts` | tui/client/action.go:385-447 | a valid approval by somebody new is counted, and the one that completes the quorum resolves the request and makes its callback due; a repeated one or the requester's changes nothing |
| `ActionLaws.ReleaseFires` | tui/client/action.go:448-469 | a due callback that is called lets its frame through, once |
| `ActionLaws.HeldBurnFires` | tui/client/receipt.go:183-202 | the burn a receipt round held is queued when the round is finalized, and not again |
| `ActionLaws.MarkedSignsNoMore` | tui/client/action.go:231-296 | a request whose own approval is on record is not signed again |
| `ActionTexts.TextsExactly` | tui/client/action.go:141-159 | two frames of one room have one approval text if and only if they are of one kind, with the same printed duration and invitees |
| `ActionTexts.SameTextSameFrame` | tui/client/action.go:141-159 | with comma-free names, nobody alone called "no one", and durations that print apart, one text means one frame |
| `ActionTexts.TextsConfused` | tui/client/action.go:153-159 | two invitees and one with a comma in its name share a text, and so do nobody and "no one" |
| `ActionRuns.EndorsesOne` | tui/client/action.go:385-417 | one approval preimage endorses one request: id, hash and nonce can be read in only one way |
| `ActionRuns.ConsentMatchesFrame` | tui/client/action.go:231-296 | when a quorum released a frame, each approver that is itself a modelled client had been shown parameters that are the text naming that frame, in a request by somebody else, unless two texts share a SHA-256 digest |
| `ActionClient.Gatekeeper.GateAction` | tui/client/action.go:115-130 | refuses at a policy quorum of 0, performs at 1 or less, requires a relay from 2 on, and otherwise registers a request for exactly that quorum; queues nothing unless it performed |
| `ActionClient.Gatekeeper.RequestAction` | tui/client/action.go:168-214 | tracks an own request exactly when the quorum is at least 2 and the key is established |
| `ActionClient.Gatekeeper.OnActionRequest` | tui/client/action.go:356-382 | tracks a peer's request exactly when it has an id and a quorum, comes from its claimed requester, is unexpired and new |
| `ActionClient.Gatekeeper.VerifyApproval` | tui/client/action.go:385-417 | verifies an approval against a snapshot of the request, outside the counting section |
| `ActionClient.Gatekeeper.AddApprover` | tui/client/action.go:62-68 | counts a fingerprint once, and never the requester |
| `ActionClient.Gatekeeper.CountApproval` | tui/client/action.go:422-447 | under the lock: looks the request up again, counts, and on quorum removes it and leaves its callback due |
| `ActionClient.Gatekeeper.CallBack` | tui/client/action.go:448-469 | after the unlock: a due callback is called, whatever happened in between |
| `ActionClient.Gatekeeper.SignApproval` | tui/client/action.go:231-296 | signs exactly another's unapproved request, with a key, whose shown parameters hash to the signed hash |
| `ActionClient.Gatekeeper.Discard` | tui/client/action.go:472-502 | a veto or expiry removes the request and no other |
| `ActionClient.Gatekeeper.Clear` | tui/client/action.go:538-543 | a vanish drops every tracked request |
| `ActionClient.Gatekeeper.StartReceiptRound` | tui/client/receipt.go:68-97 | a burn waits for its receipt round exactly when there is a key, no receipt yet and no open round |
| `ActionClient.Gatekeeper.FinalizeReceipt` | tui/client/receipt.go:183-202 | finalizing the receipt releases the burn it was holding, once |
| `ActionClient.Gatekeeper.Fire` | tui/client/client.go:482-536 | the raw primitives behind the gate: a scuttle starts a receipt round or burns at once, the others queue their frame |
| `ArtifactProofs.StepKeeps` | tui/client/artifact.go:125-708 | every critical section keeps approvers, arrival order and proofs in agreement, excludes the proposer, and keeps retained lists and written entries sound |
| `ArtifactRuns.RetainedProofsSeal` | tui/client/artifact.go:488-517 | a list retained at quorum is exactly quorum proofs by distinct non-proposers, each verifying under the layout its own role selects; the Sealer rebuilds that preimage from the entry body and accepts each exactly when the proposal carried a nonce |
| `ArtifactRuns.WrittenBodies` | tui/client/artifact.go:569-593 | in every run a written body has the proposal's source, ref, hash, date, id, nonce and proposer, and names its writer, one of the quorum that completed it |
| `ArtifactRuns.SignsAsAsked` | tui/client/artifact.go:238-332 | a call signs nothing, or one approval of somebody else's proposal under the role that answers the request |
| `ArtifactRuns.RolesHeld` | tui/client/artifact.go:276-332 | in every run, every approval a client signed is of somebody else's proposal and carries a role its credential names, or none |
| `ArtifactRuns.MarkedSignsNoMore` | tui/client/artifact.go:238-266 | a proposal whose own approval is on record is not signed again |
| `ArtifactRuns.OneWriter` | tui/client/artifact.go:518-559 | if at most quorum members other than the proposer ever approve, at most one entry is written in the whole room, by the least fingerprint among them, whatever the arrival orders and whatever the proposer signs |
| `ArtifactRuns.SameSetOneWriter` | tui/client/artifact.go:518-559 | two clients whose completing sets coincide never both write |
| `ArtifactWriters.CountingElects` | tui/client/artifact.go:488-544 | from any client that just tracked the proposal, for every arrival order: it writes exactly when it is the least of the first quorum arrivals, and over exactly those |
| `ArtifactWriters.WriterUniqueExactly` | tui/client/artifact.go:529-559 | the writer is unique in every pair of arrival orders if and only if no more members approve than the quorum |
| `ArtifactWriters.TwoElected` | tui/client/artifact.go:529-559 | with more approvers than the quorum, two members can each complete a set in which they are least |
| `ArtifactWriters.SomeoneElectedExactly` | tui/client/artifact.go:529-535 | when every approver counts every approval: somebody is elected under every assignment of arrival orders if and only if the approvers are exactly quorum many |
| `ArtifactWriters.NobodyElected` | tui/client/artifact.go:529-535 | with more approvers there are orders under which everybody completes and nobody is elected |
| `ArtifactWriters.LeastWrites` | tui/client/artifact.go:488-544 | with exactly quorum approvers the least of them, having counted them all, has written, over exactly those |
| `ArtifactRaces.OrdersAreRuns` | tui/client/artifact.go:238-544 | every assignment of arrival orders to the members of a fresh room is realised by a run in which everybody signs, counts in its own order, resolves, and writes exactly if elected |
| `ArtifactRaces.OneWriterExactly` | tui/client/artifact.go:529-544 | every run of a fresh room whose members are the approvers has at most one entry for the proposal if and only if the room is no larger than the quorum |
| `ArtifactRaces.TwoMembersWrite` | tui/client/artifact.go:529-544 | in any larger room there is a run, every frame delivered once, in which two members write |
| `ArtifactRaces.NobodyWrites` | tui/client/artifact.go:529-544 | and one in which every member completes and no member writes |
| `ArtifactOutcomes.SomeoneWritesExactly` | tui/client/artifact.go:488-544 | in every run in which at most quorum members approve, whatever is lost, dropped or expired: somebody has written if and only if the client with the least fingerprint of the approvers saw the quorum reached |
| `ArtifactOutcomes.SomeoneAlwaysWritesExactly` | tui/client/artifact.go:529-544 | over the runs of a fresh room, whatever somebody saw reach its quorum is written by somebody if and only if the room has at most one member or fewer than the quorum |
| `ArtifactOutcomes.ExpiryLeavesNoWriter` | tui/client/artifact.go:650-678 | a run in which everybody signs, the proposal expires at the least member, everybody else sees the quorum reached, and nobody writes |
| `ArtifactWriters.RedeliveryWritesTwice` | tui/client/artifact.go:392-417 | a proposal delivered again after it resolved, signed and counted both times, is written again by the same client |
| `ArtifactWriters.ReusedIdCountsStaleApproval` | tui/client/artifact.go:238-266 | an id reused between signing and counting lets an approval of one proposal complete another |
| `ArtifactClient.LeastFingerprint` | tui/client/artifact.go:548-559 | returns the byte-wise least fingerprint of the list |
| `ArtifactClient.ResolveRole` | tui/client/artifact.go:276-332 | a request is answered by exactly that role if the credential names it and refused otherwise; without one, the sole role, none when the credential is absent or empty, and a refusal to choose among several |
| `ArtifactClient.Approvals.Propose` | tui/client/artifact.go:125-175 | tracks an own proposal |
| `ArtifactClient.Approvals.OnArtifactProposal` | tui/client/artifact.go:392-417 | tracks a peer's proposal only from its claimed proposer and under an untracked id |
| `ArtifactClient.Approvals.VerifyApproval` | tui/client/artifact.go:430-465 | verifies an approval under the layout its role selects, against a snapshot of the proposal |
| `ArtifactClient.Approvals.AddApprover` | tui/client/artifact.go:83-90 | counts a fingerprint once, never the proposer, and records its place in the order |
| `ArtifactClient.Approvals.CountArtifactApproval` | tui/client/artifact.go:488-544 | counts, and on reaching the quorum retains the proofs in order, drops the proposal and writes the entry if it is the writer |
| `ArtifactClient.Approvals.ApproveArtifact` | tui/client/artifact.go:201-266 | signs exactly another's unapproved proposal with a key and an answerable request, over its id, hash and nonce, under the role that answers it |
| `ArtifactClient.Approvals.WriteArtifactEntry` | tui/client/artifact.go:569-593 | the entry carries the proposal's own id, hash, nonce and proposer |
| `ArtifactClient.Approvals.Discard` | tui/client/artifact.go:468-481 | a rejection or expiry removes the proposal |
| `ArtifactClient.Approvals.Clear` | tui/client/artifact.go:702-708 | a vanish drops tracked proposals and retained proofs |
| `Records.CanonicalDetermines` | tui/record/record.go:117-146 | equal canonical bytes mean equal signed content, across both record layouts |
| `Records.HeadCommits` | tui/record/record.go:150-239 | a signature over a head commits to the whole chain: two linked chains with one head agree in length and in signed content entry by entry, or two canonical entries share a SHA-256 digest |
| `Records.Chain.Append` | tui/record/record.go:271-293 | a verified chain stays verifiable exactly when the appended spec and author are well formed |
| `Records.NewEntryVerifies` | tui/record/record.go:271-293 | what a well-formed author appends verifies in isolation |
| `Records.Chain.AppendRemote` | tui/record/record.go:300-312 | accepts exactly an entry that stands next in this chain, signed by its author; a fork is refused |
| `Records.ChainExactly` | tui/record/record.go:161-199 | a chain verifies if and only if every entry has the number and digest of what precedes it, a known kind with its schema rule, and a signature over its own bytes by the key with its author's fingerprint |
| `Records.AuthorsSigned` | tui/record/record.go:161-199 | without forgery the author of every entry of a chain that verifies signed exactly that entry |
| `Records.ChainExtends` | tui/record/record.go:161-198 | a verified chain extended by an entry verifies exactly when the entry continues it and verifies |
| `Sealing.AssembledVerifies` | tui/client/record.go:407-448 | a record assembled from collected signatures over a verified chain has exactly the collected signers, and the offline verifier accepts it exactly when it carries no approval proofs or no two of its entries name one proposal |
| `Sealing.VersionKnown` | tui/record/sealed.go:158-168 | a record says v1 exactly when it carries no meanings, no proofs and no entry in the v2 layout |
| `Sealing.ApprovalsFiled` | tui/client/record.go:417-443 | every stored proof set is filed under a proposal some entry names, and passes against that entry |
| `SealRounds.StepKeeps` | tui/client/record.go:143-498 | every handler keeps each open, retained and emitted snapshot collected over its own verified chain, and every seal signature over the head of a chain the client itself held |
| `SealRounds.NoteKeeps` | tui/client/record.go:24-97 | an own entry, which nothing checks on its way in, keeps the chain verifiable for every spec the commands build |
| `SealRuns.SignersExactly` | tui/client/record.go:275-398 | over any interleaving without a new round or a vanish: head and entries stay, the signers are exactly the earlier ones and everybody whose valid co-signature for that head was processed, before or after finalization, each held with the signature, key and meaning of its first valid co-signature, and the round is finalized at most once |
| `SealRuns.RedundantAckIgnored` | tui/client/record.go:330-348 | an invalid, misdirected or repeated co-signature changes nothing |
| `SealRuns.EachRoundCompletesOnce` | tui/client/record.go:366-398 | in every run each round is completed at most once, everything else emitted amends a completed round, and the record emitted last is the retained snapshot |
| `SealRuns.EmittedRecordsVerify` | tui/client/record.go:407-448 | every record any client emits, first or amended, carries the sealer and exactly the collected signers, and is accepted offline exactly when it has no approval proofs or distinct proposals |
| `SealRuns.SignersHeldTheChain` | tui/client/record.go:143-265 | every signer of an emitted record that is itself a modelled client held a verified chain with the same signed content, or two canonical entries share a SHA-256 digest |
| `SealRuns.LoneSealCompletes` | tui/client/record.go:143-218 | a member alone in a room who records any entry its commands build and seals completes one round, signed by itself alone |
| `SealClient.Handshake.SealWith` | tui/client/record.go:143-218 | appends the clock notes first exactly when nothing is pending or open, then seals the chain they are in; initiates exactly when the noted state may |
| `SealClient.Handshake.TakeRole` | tui/client/record.go:155-218 | co-signs a pending request exactly when its head is ours, initiates exactly when nothing is pending or open, and otherwise says why not |
| `SealClient.Handshake.AppendClockNotes` | tui/client/clock.go:109-130 | the notes join the chain one by one, each signed over the head the previous one left |
| `SealClient.Handshake.AppendSpec` | tui/client/record.go:78-97 | an own entry takes its position and link from the chain and joins it exactly when the key is established |
| `SealClient.Handshake.Initiate` | tui/client/record.go:180-209 | signs the head under the layout the meaning selects, seeds the maps and closes the amend window |
| `SealClient.Handshake.SendSealAck` | tui/client/record.go:223-247 | the acknowledgement sent is one the sealer accepts |
| `SealClient.Handshake.OnSealRequest` | tui/client/record.go:250-265 | a client sealing the same head co-signs at once |
| `SealClient.Handshake.RecordCosignature` | tui/client/record.go:330-348 | valid exactly if it verifies under the preimage its meaning selects; recorded exactly if its signer was not held |
| `SealClient.Handshake.OnSealAck` | tui/client/record.go:275-320 | counts into the open round, amends the retained one, or does nothing |
| `SealClient.Handshake.FinalizeSeal` | tui/client/record.go:366-398 | the first caller assembles the record and retains the snapshot, any other finds no round |
| `SealClient.Handshake.MaybeFinalize` | tui/client/record.go:351-358 | finalizes exactly when as many signed as are present |
| `SealClient.Handshake.AssembleSealed` | tui/client/record.go:407-448 | the record is the same for every order in which the signature map is walked |
| `SealClient.Handshake.Vanish` | tui/client/record.go:484-498 | drops the chain, the open round, the retained snapshot and any pending request |
| `SealClient.Sealer.AddVerified` | tui/record/sealer.go:118-135 | a signer is recorded under its own key's fingerprint exactly if its signature verifies |
| `SealClient.Sealer.AddSignatures` | tui/client/record.go:408-416 | re-adding a collected snapshot keeps every signature, key and endorsement |
| `SealClient.Sealer.MetaByProposal` | tui/record/sealer.go:253-263 | finds the first artifact entry that carries the id |
| `SealClient.Sealer.AddApproval` | tui/record/sealer.go:171-249 | a proof is stored exactly when it verifies, under the layout its role selects, over that entry's id, hash and nonce |
| `SealClient.Sealer.AddAllApprovals` | tui/client/record.go:421-443 | stores, per proposal and in order, exactly the retained proofs the Sealer accepts |
| `RecordVerifier.WalkChain` | tui/record/sealed.go:309-326 | accepts exactly a chain whose entries each stand in their place, signed by their authors, and returns its head |
| `RecordVerifier.CheckSeals` | tui/record/sealed.go:340-383 | accepts exactly when every seal signature is sound, lists the signers in order, and otherwise blames the least faulty fingerprint |
| `RecordVerifier.IndexProposals` | tui/record/sealed.go:426-443 | indexes each proposal's entry, and reports a duplicate exactly when two entries name one proposal |
| `RecordVerifier.CheckApprovals` | tui/record/sealed.go:445-518 | accepts exactly when every proof set is sound, surfaces per proposal exactly the approvers beyond author and proposer, and otherwise blames the least faulty proposal |
| `RecordVerifier.VerifyRecord` | tui/record/sealed.go:301-412 | valid exactly when the file shows a known version, every entry in its place and signed by its author, the recomputed head, a signature over that head by the key of every listed fingerprint, and, with proofs, no proposal named twice and every proof signed over its entry; lists the signers in order and blames the least fingerprint or proposal at fault |
| `RecordEvidence.VerifiesExactly` | tui/record/sealed.go:301-518 | the order-free conditions under which the offline verifier accepts a record, both ways |
| `RecordEvidence.VerifiedWasSigned` | tui/record/sealed.go:301-518 | without forgery, in a record that verifies every author signed its entry, every listed signer this room and head with the meaning shown, and every stored approver the id, hash and nonce of an entry of this record |
| `SealedApprovals.QuorumSurfaces` | tui/record/sealed.go:425-518 | a retained quorum whose entry was authored by one of its approvers is sealed into an accepted record that stores all quorum proofs and surfaces exactly the quorum - 1 others |
| `SealedApprovals.CountedQuorumSurfaces` | tui/client/artifact.go:488-593 | the same for whatever list any client retained in any run of the artifact flow |
| `DoubleWrites.DoubleWriteRefused` | tui/record/sealed.go:425-441 | whenever more members approve than the quorum: a run of a fresh room with two writers, and a run in which one of them seals both entries with the proofs it retained; the record carries proofs and the offline verifier refuses it |
| `SealedApprovals.StoredList` | tui/client/record.go:417-443 | with one entry per proposal the stored list is exactly what the Sealer keeps of the retained one |
| `Cosigning.AbsorbAllCollects` | tui/client/cosign.go:21-37 | over any sequence of valid and invalid acknowledgements exactly the valid signers are added, each under its own key, and all verify |
| `Cosigning.CosignRound.Take` | tui/client/roster.go:152-157 | adds exactly the co-signatures that verify over the round's preimage |
| `Cosigning.SortedKeys` | tui/attest/attest.go:36-43 | every key once, ascending, whatever order the map is walked in |
| `Cosigning.CheckSignatures` | tui/attest/roster.go:149-184 | accepts exactly when every signature is sound, lists every signer once in order, and otherwise reports the fault of the least faulty fingerprint |
| `Cosigning.CollectedSound` | tui/attest/attest.go:23-29 | what a round collected is sound to the verifiers once base64-encoded |
| `Cosigning.SoundExactly` | tui/attest/roster.go:121-189 | a map of signatures is accepted exactly when every one is by the key with the fingerprint it is filed under |
| `Cosigning.SoundWasSigned` | tui/attest/roster.go:121-189 | without forgery everybody an accepted map names signed its preimage |
| `Rosters.SetPreimageCanonical` | tui/attest/roster.go:56-61 | the set preimage is equal for every ordering, and for non-empty newline-free fingerprints equal exactly when the multisets are |
| `Rosters.UncleanConflated` | tui/attest/roster.go:56-61 | an empty fingerprint or one with a newline makes different sets share a preimage |
| `Rosters.SetHashDetermines` | tui/attest/roster.go:56-61 | equal set hashes of clean sets mean one multiset, or a SHA-256 collision in hand |
| `Rosters.VerifyRoster` | tui/attest/roster.go:121-189 | valid exactly when version, member hash and every signature are sound; signers in order; blame on the least faulty fingerprint; never malformed while hex round-trips |
| `Rosters.AttestsExactly` | tui/attest/roster.go:121-189 | the order-free conditions under which a roster is accepted, both ways |
| `Rosters.AttestedWasSigned` | tui/attest/roster.go:121-189 | without forgery every signer of an accepted roster signed this room, this epoch and the hash of exactly this member set |
| `Rosters.AssembledAttests` | tui/attest/roster.go:66-84 | the roster assembled from a round over its members' set hash is accepted with exactly the collected signers, however equal fingerprints are ordered |
| `RosterRuns.RoundCollects` | tui/client/roster.go:146-173 | while a round is open it holds the initiator and exactly the fingerprints whose valid co-signature for its set hash was processed |
| `RosterRuns.FinishedRostersAttest` | tui/client/roster.go:40-191 | every roster any client finalizes in any run is accepted offline; its signers are the client and exactly the fingerprints whose valid co-signature for its set hash that client processed between opening and finalizing the round |
| `RosterRuns.SignersSawTheSet` | tui/client/roster.go:106-143 | every signer of a finalized roster that is itself a modelled client signed while its own room, epoch and multiset of members were the attested ones, or two membership preimages share a SHA-256 digest |
| `RosterClient.Attester.MemberList` | tui/client/roster.go:106-114 | self and every peer, ascending |
| `RosterClient.Attester.SignRoster` | tui/client/roster.go:40-60 | opens a round exactly when there is a key and none is open |
| `RosterClient.Attester.OnRosterRequest` | tui/client/roster.go:120-143 | signs exactly when its own set hash and epoch are the proposed ones |
| `RosterClient.Attester.OnRosterAck` | tui/client/roster.go:146-163 | counts exactly a valid co-signature for the open round's set hash |
| `RosterClient.Attester.FinalizeRoster` | tui/client/roster.go:177-191 | the first caller assembles the artifact from the snapshot, any other finds no round |
| `RosterClient.Attester.MaybeFinalizeRoster` | tui/client/roster.go:166-173 | finalizes exactly when as many signed as are present |
| `Receipts.HashOrderFree` | tui/attest/receipt.go:46-53 | the receipt hash does not depend on the order members were listed in |
| `Receipts.VerifyReceipt` | tui/attest/receipt.go:120-188 | valid exactly when version, zeroization, hash and every signature are sound; signers in order; blame on the least faulty fingerprint |
| `Receipts.AttestsExactly` | tui/attest/receipt.go:120-188 | the order-free conditions under which a receipt is accepted, both ways |
| `Receipts.AttestedWasSigned` | tui/attest/receipt.go:120-188 | without forgery every signer of an accepted receipt signed the hash of exactly this core |
| `Receipts.HashDetermines` | tui/attest/receipt.go:46-53 | two cores with one hash say the same, up to version and member order, or two encodings share a digest |
| `Receipts.NewReceiptAttests` | tui/attest/receipt.go:74-85 | a receipt made from a round over its core's hash has exactly the collected signers and is accepted exactly when its core attests zeroization |
| `Receipts.IssuedReceiptsAttest` | tui/client/receipt.go:45-202 | from a fresh client over any steps, every receipt issued is accepted offline; its signers are self and exactly the fingerprints whose valid co-signature for its hash was processed while its round was open, or self alone for a self-receipt |
| `Receipts.OneReceiptExactly` | tui/client/receipt.go:68-213 | a client issues at most two receipts, and more than one exactly when an open round is finalized after the latch was set |
| `Receipts.TwoReceipts` | tui/client/client.go:1467-1487 | a run in which it does |
| `ReceiptClient.Scuttler.StartReceiptRound` | tui/client/receipt.go:68-97 | opens a round exactly when there is a key, no receipt was issued and none is open |
| `ReceiptClient.Scuttler.WriteSelfReceipt` | tui/client/receipt.go:103-125 | issues a single-party receipt exactly when there is a key and none was issued, open round or not |
| `ReceiptClient.Scuttler.OnReceiptAck` | tui/client/receipt.go:152-169 | counts exactly a valid co-signature for the open round's hash |
| `ReceiptClient.Scuttler.FinalizeReceipt` | tui/client/receipt.go:183-202 | the first caller issues the receipt and sets the latch, any other finds no round |
| `ReceiptClient.Scuttler.ClearReceipt` | tui/client/receipt.go:206-213 | drops the round and leaves the latch |
| `IdentityLaws.ValidExactly` | tui/attest/identity.go:470-655 | the eight ordered steps find no reason exactly when the artifact is well formed, its named issuer has a signature entry, some pinned key verifies with any embedded key consistent, the closed window contains the time, every supplied statement is itself well formed and vouched for, and none by the same issuer lists the serial |
| `IdentityLaws.StatementExactly` | tui/attest/revocation.go:194-310 | a statement verifies exactly when its version, issuer, id, dates and every entry are well formed, its issuer has a signature entry, and some pinned key verifies with any embedded key consistent |
| `IdentityLaws.StatementWasIssued` | tui/attest/revocation.go:258-310 | without forgery a statement that verifies was signed by a pinned key, and nothing else it signed reads as another list |
| `IdentityLaws.ClassExactly` | tui/attest/identity.go:470-655 | what each class of failure means, both ways: no key pinned, no pinned key named, out of window or revoked, a pinned key's signature or a supplied statement that does not verify |
| `IdentityLaws.ReasonIsFirst` | tui/attest/identity.go:470-655 | the reason given names something that is wrong, and nothing checked at an earlier stage is |
| `IdentityLaws.StatementBlames` | tui/attest/revocation.go:194-310 | what is blamed in a statement is wrong with it |
| `IdentityLaws.VerifiersExactly` | tui/attest/identity.go:572-601 | the fingerprints listed as verifying are exactly those of pinned keys whose signature verifies |
| `IdentityLaws.WorstIsUnique` | tui/attest/identity.go:429-442 | when no pinned key verifies, the reason is the unique most severe outcome |
| `IdentityLaws.KeyOrderIrrelevant` | tui/attest/identity.go:573-618 | the verdict is a function of the set of pinned keys |
| `IdentityLaws.SameKeysSameStatement` | tui/attest/revocation.go:258-310 | so is a revocation statement's |
| `IdentityLaws.VerifiedByPermutes` | tui/attest/identity.go:600-601 | VerifiedBy is the same list for every permutation of the pinned keys |
| `IdentityLaws.StatementOrderIrrelevant` | tui/attest/revocation.go:321-364 | the verdict does not depend on the order of the revocation statements |
| `IdentityLaws.MoreKeys` | tui/attest/identity.go:572-655 | pinning more keys, statements re-verified under the larger set, leaves every verdict as it was except one that something was unanchored; in particular Valid stays valid |
| `IdentityLaws.MoreStatements` | tui/attest/revocation.go:321-364 | supplying more statements leaves every verdict but Valid and revoked as it was, and never makes an invalid result valid |
| `IdentityLaws.ValidWasIssued` | tui/attest/identity.go:212-218 | without forgery, a valid result means a pinned issuer signed exactly these fields, and nothing it signed reads as an attestation with any of them different |
| `IdentityVerifier.RolesProblem` | tui/attest/identity.go:685-700 | finds no problem exactly when the list is non-empty, without empty roles and without repeats |
| `IdentityVerifier.TryKeys` | tui/attest/identity.go:572-601 | tries every key: the verifying ones sorted, and exactly the failures that occur |
| `IdentityVerifier.Worst` | tui/attest/identity.go:603-614 | reports the one most severe failure, or that no pinned key is named |
| `IdentityVerifier.VerifyRevocation` | tui/attest/revocation.go:194-310 | unusable exactly for a missing statement or a wrong key size; otherwise valid exactly when well formed and vouched for, with the specified reason and signers |
| `IdentityVerifier.CheckRevocations` | tui/attest/revocation.go:321-364 | unverifiable exactly when some supplied statement is not well formed or not vouched for, revoked exactly when, with all of them verified, one by the issuer lists the serial; the checks are, in order, one for each statement that is present and verifies, stale ones included |
| `IdentityVerifier.OneCheckEachExactly` | tui/attest/identity.go:412 | the result lists one check per supplied statement if and only if none was supplied, or the artifact is in force and every statement is present and verifies; it lists none if and only if the artifact is not in force or no statement is present and verifies |
| `IdentityVerifier.ValidChecksExactly` | tui/attest/identity.go:642 | for a valid result, if and only if none was missing |
| `IdentityVerifier.UnreadableStatementUnlisted` | tui/attest/identity.go:412 | a supplied statement of another version leaves the result's list empty |
| `IdentityVerifier.ExpiredListsNothing` | tui/attest/identity.go:620-642 | after the expiry a supplied statement that verifies is not listed, at the expiry it is |
| `IdentityVerifier.StageReached` | tui/attest/identity.go:470-642 | a verdict falls at or after the revocation stage exactly for artifacts in force |
| `IdentityVerifier.VerifyIdentity` | tui/attest/identity.go:470-666 | answered exactly for a usable call; Valid exactly under the order-free conditions; Reason and ReasonClass empty exactly then, and otherwise the class means exactly what it says; a lifecycle reason only once some pinned signature verified; Revocation has one check per statement exactly when none was supplied or the artifact is in force and every statement is present and verifies |
| `Display.IdentityDisplayFor` | tui/attest/identity_display.go:127-181 | draws what the specified rendering says |
| `Display.VerifiedExactly` | tui/attest/identity_display.go:127-181 | a verified state exactly for a valid result with the subject join wherever an artifact is carried; every other state draws the asserted name |
| `Display.BytesVerifiedExactly` | tui/attest/identity_display.go:187-202 | bytes that arrived are never drawn as if none had; a row is verified exactly when they parse, join and carry a valid result; unparsable ones are malformed |
| `Display.NoArtifactNoJoin` | tui/attest/identity_display.go:140-148 | with no artifact carried a valid result verifies a row for any key |
| `Display.VerifiedNameWasSigned` | tui/attest/identity_display.go:127-181 | with the artifact carried and its own result, a verified row's subject is the rendered key and its non-empty name is the display name, or else the principal, of a statement a pinned issuer signed |
| `Closing.StepKeeps` | tui/client/client.go:883-1055 | every interleaved step of producers, write loop and Close keeps the accounting balanced |
| `Closing.CloseConserves` | tui/client/client.go:883-970 | once the write loop has exited, the frames handled followed by those reported are in order every frame accepted; no error exactly when all were handled; and handled is sent when every frame marshals |
| `Closing.SentInOrder` | tui/client/client.go:995-1011 | until Close looks, what was handled is a prefix of what was accepted |
| `Closing.DrainHandlesAtMostSnapshot` | tui/client/client.go:1029-1040 | the drain never handles more frames than were queued when it began |
| `Closing.ExactWhen` | tui/client/client.go:927-970 | from every reachable state in which Close is about to look, the accounting is exact over every continuation if and only if the write loop has then exited, failed on the frame it holds, or drained its snapshot |
| `Closing.DiscrepanciesShow` | tui/client/client.go:927-970 | afterwards the only discrepancies are a frame held unseen, one that failed unseen and one reported and sent, and with distinct frames any of them shows |
| `Closing.TakenFrameIsMissed` | tui/client/client.go:995-1055 | a frame taken but not yet begun is neither reported nor sent |
| `Closing.InFlightFrameIsCountedTwice` | tui/client/client.go:927-970 | a frame in flight is reported and may be sent after all |
| `Outbox.Queue.Enqueue` | tui/client/client.go:1551-1561 | accepts exactly while the queue has room, as the accounting model's producer step |
| `Outbox.Queue.BeginSend` | tui/client/client.go:956-960 | makes exactly the accounting model's begin step: the frame taken is now in flight |
| `Outbox.Queue.EndSend` | tui/client/client.go:962-970 | makes exactly the model's end step: a sent frame leaves, a failed one stays and ends the loop |
| `Outbox.Queue.Receive` | tui/client/client.go:995-1011 | makes exactly the model's take step: the oldest queued frame leaves the queue |
| `Outbox.Queue.WriteEnvelope` | tui/client/client.go:1046-1055 | a run of the model: a frame that does not marshal is skipped, one that fails stays in flight |
| `Outbox.Queue.DrainForClose` | tui/client/client.go:1029-1040 | a run of the model that tries exactly the frames queued at the start, in order, up to the first transport error, whatever arrives meanwhile |
| `Outbox.Queue.TakeUnflushed` | tui/client/client.go:927-952 | a run of the model; with the write loop gone, handled and reported are the accepted frames in order, and nothing is reported exactly when all were handled |
| `Files.PiecesRejoin` | tui/client/file.go:93-106 | the chunks of any artifact, empty and exact multiples included, join to the artifact |
| `Files.Cut` | tui/client/file.go:167-179 | the loop's bounds cut exactly those chunks |
| `Files.AnyDeliveryReassembles` | tui/client/file.go:284-347 | whatever order and repetition the chunks of an artifact within the cap arrive in, the transfer is finalized exactly once, when and only when every chunk has arrived, and writes the artifact |
| `Files.AcksFollow` | tui/client/file.go:284-313 | whatever chunks arrive, a transfer that was not aborted has acknowledged exactly the multiples of 16 among the counts of distinct chunks reached, and the total on completion |
| `Files.EndsOnce` | tui/client/file.go:228-390 | over every sequence of offers, chunks and aborts under any ids and counts: the accepted offers are, id by id, exactly those that ended, those a later offer of the id pushed out and those still open; and only a buffer with the digest of an accepted offer of that id, within the cap, is written |
| `Files.NoneLostExactly` | tui/client/file.go:269-275 | every accepted offer ends or stays open if and only if no offer is accepted while its id is in use |
| `Files.SecondOfferDisplaces` | tui/client/file.go:269-275 | two offers of one id: both accepted, neither ended, one open |
| `Files.RunsOnExactly` | tui/client/file.go:269-272 | the receiver survives exactly the arrivals in which no offer states a chunk count that make refuses |
| `FileReceiver.Receiver.OnFileChunk` | tui/client/file.go:284-313 | makes exactly that delivery, keeping received equal to the number of filled slots and bytes to their size |
| `FileReceiver.Receiver.Fill` | tui/client/file.go:297-302 | fills an empty slot once and leaves a filled one |
| `FileReceiver.Receiver.FinalizeRecv` | tui/client/file.go:317-347 | writes the slots joined in order exactly when their digest is the offered one |
| `FileWindow.WindowSafe` | tui/client/file.go:26-31 | with one in-order lossless receiver at most 4 acknowledgements are outstanding, so none is dropped; the sender is never more than 64 chunks ahead; a full window has an acknowledgement to come |
| `FileWindow.TransferCompletes` | tui/client/file.go:148-200 | every run is finite, and one that cannot continue has delivered and acknowledged every chunk |
| `FileWindow.WindowFollowsLargestAck` | tui/client/file.go:137-155 | in every run from the empty room, with any receivers, the sender stays within a window of the largest acknowledgement, which some receiver reached |
| `FileWindow.SlowReceiverLags` | tui/client/file.go:147-155 | a run in which a receiver is any number of chunks behind |
| `FileWindow.SlowestBoundsExactly` | tui/client/file.go:147-155 | every receiver is within a window of the sender in every run if and only if there is at most one receiver or the artifact fits one window |
| `FileWindow.Sender.OnFileAck` | tui/client/file.go:363-373 | an acknowledgement that arrives makes exactly the link's carry step: kept while the channel has room, lost otherwise |
| `FileWindow.Sender.Absorb` | tui/client/file.go:148-160 | makes exactly the link's absorb step: the largest acknowledgement so far is kept |
| `FileWindow.Sender.StreamNext` | tui/client/file.go:146-200 | a run of the link model: a chunk goes out only within a window of the largest acknowledgement absorbed |
| `CliArgs.SplitTerminator` | internal/cliargs/cliargs.go:84-91 | splits at the first bare "--", dropping it |
| `CliArgs.RunFlagSet` | internal/cliargs/cliargs.go:69-71 | flag parsing stops at the first token that is not a flag |
| `CliArgs.FlagForms` | internal/cliargs/cliargs.go:69-71 | the ways a flag is written, one dash or two, "-n v", "-n=v" or a switch, and what each sets; unknown names, missing and refused values are errors |
| `CliArgs.Parse` | internal/cliargs/cliargs.go:65-80 | the re-parsing loop terminates and sets and returns exactly what one permuting pass does |
| `CliArgs.LineGroups` | internal/cliargs/cliargs.go:65-80 | in a line that parses, every token is a positional, a flag or a flag's value exactly once, in order |
| `CliArgs.GroupsParse` | internal/cliargs/cliargs.go:65-80 | and every line of such groups parses to their settings and their words |
| `CliArgs.ShuffleIrrelevant` | internal/cliargs/cliargs.go:65-80 | moving flag groups across positionals changes neither the settings nor the positionals |
| `CliArgs.TailVerbatim` | internal/cliargs/cliargs.go:65-91 | what follows the first "--" is returned verbatim and sets nothing |
| `CliArgs.ErrorDropsTheRest` | internal/cliargs/cliargs.go:69-79 | after an error only the positionals before it, and the tail, come back |
| `CliArgs.FailingLine` | internal/cliargs/cliargs.go:65-80 | every line that fails is standing groups, then the offending flag, then the rest, and what was set and returned is exactly those groups' |
| `CliArgs.SpentIsUsed` | internal/cliargs/cliargs.go:65-80 | what is counted as consumed by the offending flag is what a flag that parses consumes |
| `CliArgs.PromiseKeptExactly` | internal/cliargs/cliargs.go:61-64 | the arguments the comment promises come back if and only if nothing follows the offending flag and the value it refused before the first "--" |
| `CliArgs.LostArgument` | internal/cliargs/cliargs.go:61-64 | a line on which one does not |
| `CliArgs.Unexpected` | internal/cliargs/cliargs.go:102-117 | objects exactly when there are more positionals than allowed, naming the first one that is not |

## Left out

- Assumptions about the world, each named where it is used: no signature is forged (`Unforged`), what a
  key signs verifies (`SignsWhatVerifies`), distinct keys have distinct fingerprints
  (`FingerprintsDistinct`), a signature verifies over one message (`SignsExactly`), base64 and hex decode what they encode (`TextCodecs`), fingerprints are
  non-empty and newline-free (`CleanFingerprints`). `Crypto.HypothesesConsistent` shows the signing,
  fingerprint and codec hypotheses can hold together. New request and proposal ids are fresh at the
  client that tracks them, and a resolved proposal is not delivered again; the two counterexamples
  above are what happens otherwise.
- The internals of Ed25519, SHA-256, base64, hex, RFC 3339 and JSON: function values.
- `ActionClient.Gatekeeper.RequestAction`: the expiry timer and the broadcast are separate steps of the
  run, not part of the method; the same holds for every handler that sends or arms a timer.
- `ArtifactClient.Approvals.OnArtifactProposal`: expiry is a parameter, since clocks are not modelled.
- `SealClient.Handshake.SealWith`: the incident clock is not modelled; the lines it has to say are a
  parameter. Other handlers may run between the notes and the seal: in the runs they are separate steps.
- `ArtifactRaces.OrdersAreRuns`: members approve without a credential, so without a role; a signature is
  taken to verify over one message only (`SignsExactly`).
- `DoubleWrites.DoubleWriteRefused`: the artifact flow and the seal flow are two runs, the second fed with
  the entries and the proofs the first left at the sealing member.
- `Records.Chain.Append`: a typed entry with an empty schema, or a link with an empty hash, is appended
  by the source without complaint and makes the chain unverifiable; the contract says exactly when.
- `Receipts.IssuedReceiptsAttest`: a failing signer in `writeSelfReceiptIfNeeded`, which sets the latch
  and then issues nothing, is not modelled.
- `Display.IdentityDisplayFor`: the detail sentence and the glyph of `IdentityDisplayMark` are left out.
- `Files.RunsOnExactly`: the largest count `make` serves is a parameter; running out of memory below it is
  left out.
- `FileReceiver.Receiver.FinalizeRecv`: writing to the file system, file names and their sanitizing are
  left out; a write is the buffer that would be written.
- `CliArgs.Parse`: the flag package's `-help` handling is an error like any undefined flag.
- `onScuttleReceiptRequest` co-signs any hash offered for its own room; there is no property to state.
- Per-role approver pairs of the record verifier (`dedupApproverRoles`), which follow the same walk.
- The approvers' credential entries written beside an artifact entry, and pending-list queries.
- Prefix resolution of request and proposal ids, whitespace trimming, event texts and event delivery
  order: results are stated at the moment the lock is held.
- Everything outside these files: transports, the relay server, the hub, invites, Tor, adapters, the
  web client and the command-line mains.
