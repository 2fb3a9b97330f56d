# Verified model of the audit log and its neighbours

A Dafny model of the tamper-evident audit log in `crates/audit` and of four smaller parts of the
repository: the cluster node, the ECDSA signature conversion and the client of the Go SDK, and
incremental backup. `dafny verify dfyconfig.toml` checks the whole project.

Parts that update state in place are classes and methods with loops; each is proved against a
specification on values, and the laws below are proved about those specifications.

- Audit log: `Event`, `HashChain`, `Checkpoint`, `Storage`, `LogProtocol` (the log call as a
  crash-prone step protocol), `Logger` (synchronous and batching asynchronous logger),
  `TamperDetection`, `Verifier`.
- Merkle tree: `HashTree`, `MerkleProof`, `MerkleLevels`, `MerkleTree`, and `Rfc6962`, an independent
  top-down form of the tree hash and audit path of RFC 6962.
- The rest: `Cluster`, `Signature`, `Backup`, `Client`. Shared: `Prelude`, `Crypto`.

## Reading the statements

- SHA-256, HMAC, the timestamp printer and the JSON printers are parameters: every theorem holds for
  all functions of their types. That some collision exists is true of any hash, so a statement with
  "or a collision" always names the inputs: two finite sets of byte strings that the two computations
  hashed (`Crypto.Collision`), or two byte strings at one position (`HashChain.CollidesAt`).
- Strings are their UTF-8 bytes. A file is the sequence of its lines and a line is an event: parsing
  is taken to invert printing, and a line is written whole or not at all.
- A failed write may have put its line into the writer's buffer, and a failed flush may have written
  out the first buffered lines. A buffered line goes out with a later flush although its call reported
  an error (`crates/audit/src/storage.rs:145-151`). A flush or a rotation can come at any time: after a
  batch, inside a log call, or on request.
- Clock readings, write outcomes, arrivals and responses are arguments. A lock makes its section one
  step, and the channel of the asynchronous logger is a queue.

## Where the code differs from what it says

- A failed log call may leave its line in the buffer. If a later flush writes it out, a restart finds
  one event more than the process held (`LeftoverRecovered`); if another line follows it into the file,
  the file holds one number twice and the restart fails (`OverrunNotRecovered`). `Recovery` and
  `RebuiltAgainstHeld` give the exact conditions.
- The restart compares the hashes stored in the file, not hashes recomputed from the events:
  `RestartAccepts` says exactly which files it takes, and `EditedRestarts` gives edited files among them.
- The restart reads the current file only, so after a rotation it fails or starts from nothing
  (`RestartAfterCalls`).
- A rotation overwrites the oldest closed file, acknowledged events included (`OldestFileLost`):
  `AcknowledgedFate` says exactly which are still there.
- A checkpoint says nothing about a log longer than it: any honest chain passes then
  (`OtherLogRestarts`, `OtherLogReport`).
- Agreement with RFC 6962 holds for power-of-two leaf counts only (`RfcAgreement`), and a root alone
  does not determine the number of leaves (`RootSharedAcrossLengths`).
- The tamper detector looks for no gap at the start of a list, so only the broken link shows that first
  events are missing (`DeletionReported`); the verifier does not look at that link either and names the
  number (`DeletionVerdict`). A missing key or metadata and an empty one have one hash (`HashCoversText`).
- The quick check lets two zero sequence numbers at the start through (`QuickEqualsFull`, `TwoZeros`).
- The timestamp check tolerates anything below two seconds, since it compares whole seconds with one,
  where its comment says below one second (`crates/audit/src/tamper_detection.rs:340-360`):
  `TimestampTolerance` is the exact bound, `OneAndAHalfSecondsPass` a case between the two.
- Votes are lost on restart: `ElectionSafety` says how many restarting nodes allow two winners.
- Deleted keys can come back on restore (`DeletedKeyRestored`): `RestoreFaithful` says when.

## Model

| member | source | states |
|---|---|---|
| `Event.RechainedFixpoint` | crates/audit/src/event.rs:88-128 | relinking recomputes a correct hash, and leaves an event that already verifies with that link unchanged (`current_hash` is not hashed) |
| `Event.HashCoversConcatenation` | crates/audit/src/event.rs:88-123 | operation, namespace, client and key enter the hash only through their concatenation: events that agree on it and on the rest have one hash |
| `Event.HashCoversText` | crates/audit/src/event.rs:88-123 | each text field is covered: events that differ only in it have different hashed bytes, a missing key or metadata counting as empty |
| `Event.HashCoversPrinted` | crates/audit/src/event.rs:88-123 | so are timestamp, type, result, as far as they print differently, and every 64-bit sequence number |
| `Event.GenesisIsZero` | crates/audit/src/event.rs:217-217 | the genesis hash decodes to 32 zero bytes |
| `Event.BuildFailsExactly` | crates/audit/src/event.rs:209-216 | a logger can build an event exactly when no required field is missing, and the error names the first one that is |
| `Event.BuildAt` | crates/audit/src/logger.rs:129-142 | an event built for a position carries that number and link, the clock reading and every field of the request, and passes `verify_hash` |
| `HashChain.HashChain.constructor` | crates/audit/src/hash_chain.rs:214-220 | a new chain is empty and valid: its tip is the genesis hash |
| `HashChain.HashChain.Append` | crates/audit/src/hash_chain.rs:278-303 | a wrong number is refused and changes nothing; otherwise the chain grows by the relinked event and stays an honest chain, whatever hashes the event came with |
| `HashChain.HashChain.Verify` | crates/audit/src/hash_chain.rs:352-383 | Ok exactly for ranges inside the chain whose every event passes; otherwise the range is rejected or the first failing event is named |
| `HashChain.HashChain.VerifyAll` | crates/audit/src/hash_chain.rs:386-396 | Ok exactly when every event passes; always Ok on a chain grown by `append` |
| `HashChain.EqualBytesEqualLinks` | crates/audit/src/event.rs:88-123 | equal hashed bytes with metadata of one length carry equal links, though the fields are not separated |
| `HashChain.ChainBinding` | crates/audit/src/hash_chain.rs:352-396 | two verified chains of equal length with one last hash have equal hashes and equal hashed bytes at every position, or some position holds a colliding pair |
| `Checkpoint.CtEq` | crates/audit/src/checkpoint.rs:180-189 | the constant-time loop decides equality of byte strings of any lengths |
| `Checkpoint.TagBinds` | crates/audit/src/checkpoint.rs:80-98 | a tag binds both the sequence number and the root unless the two tagged messages collide: under HMAC with that key, or under the hash if there is no key |
| `Checkpoint.TagDecodes` | crates/audit/src/checkpoint.rs:80-98 | the tag decodes to the HMAC of the message under the key, or to its hash without one |
| `Checkpoint.TagUnderOtherKey` | crates/audit/src/checkpoint.rs:80-98 | a tag valid under one key is valid under another, or without one, exactly when those digests of the message agree |
| `Checkpoint.TagUsesOnePrimitive` | crates/audit/src/checkpoint.rs:80-98 | a keyed tag does not depend on the hash, nor an unkeyed one on HMAC |
| `Checkpoint.VerifyIntegrity` | crates/audit/src/checkpoint.rs:116-124 | Ok exactly when the stored tag is the tag of the stored sequence and root under the key |
| `Checkpoint.AgainstLive` | crates/audit/src/checkpoint.rs:148-176 | accepts exactly a valid tag with a tip not behind the checkpoint, and, at the same tip, an equal root if there is one |
| `Checkpoint.VerifyAgainstLive` | crates/audit/src/checkpoint.rs:148-176 | the guard as written returns that verdict, with the error of the first check that fails |
| `Crypto.HexRoundTrip` | crates/audit/src/merkle_tree.rs:223-237 | decoding a digest's hexadecimal text gives the digest back |
| `Crypto.HexIsLowerCase` | crates/audit/src/event.rs:122-122 | encoded text has no upper-case letter |
| `Prelude.LittleEndianDigit` | crates/audit/src/event.rs:93-93 | byte i of a number is its i-th digit to base 256 |
| `HashTree.TreeBinding` | crates/audit/src/merkle_tree.rs:207-237 | with the leaf and node prefixes, equal digests come from equal trees, shape included, or the two computations hashed a colliding pair |
| `MerkleProof.Verify` | crates/audit/src/merkle_tree.rs:605-622 | the loop accepts exactly when the refolded path equals the given root |
| `MerkleProof.ElementInputSplits` | crates/audit/src/merkle_tree.rs:223-237 | a step that hashes to an honest node's input carries that node's two children: non-hexadecimal or wrongly sized siblings cannot |
| `MerkleProof.PathSound` | crates/audit/src/merkle_tree.rs:605-622 | a path of any length and content that refolds to a tree's digest walks down that tree to its leaf, or a colliding pair was hashed |
| `MerkleProof.PathComplete` | crates/audit/src/merkle_tree.rs:605-622 | conversely, a path that walks down a tree to a leaf refolds to the digest of the tree |
| `MerkleTree.RootIsRfcHash` | crates/audit/src/merkle_tree.rs:341-376 | for every leaf list the bottom-up root is the Merkle Tree Hash of section 2.1 of RFC 6962 of the leaves extended by the odd-node duplicates |
| `MerkleTree.ExpansionExtends` | crates/audit/src/merkle_tree.rs:341-376 | the extension begins with the leaves, contains no new value, and is the leaves themselves exactly for power-of-two counts |
| `MerkleTree.RfcAgreement` | crates/audit/src/merkle_tree.rs:194-237 | the root agrees with RFC 6962 on the leaves themselves for power-of-two counts and, apart from collisions, for no others |
| `MerkleTree.RootBinding` | crates/audit/src/merkle_tree.rs:341-376 | two lists share a root exactly when they share their extension, apart from collisions between the two trees |
| `MerkleTree.RootBindsEqualLengths` | crates/audit/src/merkle_tree.rs:341-376 | a root and a leaf count determine the leaves, or the two trees hashed a colliding pair |
| `MerkleTree.RootSharedAcrossLengths` | crates/audit/src/merkle_tree.rs:341-376 | without the count they do not: three leaves and the same three with the last repeated have one root |
| `MerkleTree.ProofSound` | crates/audit/src/merkle_tree.rs:605-622 | an accepted proof is the audit path of a position, so its leaf is one of the leaves, or a colliding pair was hashed; any sibling text and path length allowed |
| `MerkleTree.ProofComplete` | crates/audit/src/merkle_tree.rs:605-622 | the audit path of every position is accepted, in hexadecimal of either case |
| `MerkleTree.GeneratedIsAuditPath` | crates/audit/src/merkle_tree.rs:434-489 | the recorded steps of leaf i are its audit path of section 2.1.1 of RFC 6962, with the binary digits of i as side marks |
| `MerkleTree.GeneratedProof` | crates/audit/src/merkle_tree.rs:434-489 | that path refolds to the root and has k elements with 2^(k-1) < n <= 2^k for n >= 2 leaves |
| `MerkleTree.MerkleTree.constructor` | crates/audit/src/merkle_tree.rs:287-293 | a new tree is valid and empty, so it has no root |
| `MerkleTree.MerkleTree.FromHashes` | crates/audit/src/merkle_tree.rs:296-306 | the tree holds exactly the given leaves, its index the last position of each, its root the root of the list |
| `MerkleTree.MerkleTree.Update` | crates/audit/src/merkle_tree.rs:309-314 | appends one leaf and keeps root and index right |
| `MerkleTree.MerkleTree.Rebuild` | crates/audit/src/merkle_tree.rs:341-376 | the level loop computes the root of the leaves, none for an empty tree |
| `MerkleTree.MerkleTree.PairUp` | crates/audit/src/merkle_tree.rs:353-370 | one pass over pairs gives the next level, the odd last node paired with itself |
| `MerkleTree.MerkleTree.GetRoot` | crates/audit/src/merkle_tree.rs:379-384 | the root of the leaves, or the empty-tree error |
| `MerkleTree.MerkleTree.VerifyInclusion` | crates/audit/src/merkle_tree.rs:387-389 | true exactly for the leaves |
| `MerkleTree.MerkleTree.WalkUp` | crates/audit/src/merkle_tree.rs:448-484 | the walk over rebuilt levels records the sibling and side of every level of the tree |
| `MerkleTree.MerkleTree.GenerateProof` | crates/audit/src/merkle_tree.rs:434-489 | a proof exists exactly for the leaves, repeats included; it is the audit path of the last occurrence, is accepted against the root and has logarithmic length |
| `MerkleTree.MerkleTree.VerifyProof` | crates/audit/src/merkle_tree.rs:492-495 | accepts exactly the proofs that refold to the current root; an empty tree gives the error |
| `Storage.ClosedHistory` | crates/audit/src/storage.rs:159-197 | a rotation moves lines between files without losing or reordering any |
| `Storage.AuditStorage.constructor` | crates/audit/src/storage.rs:70-97 | a fresh directory holds no lines and no checkpoint |
| `Storage.AuditStorage.ShiftSlots` | crates/audit/src/storage.rs:170-183 | the descending renames move every closed file exactly one slot up, so none is overwritten except the one in the last slot |
| `Storage.AuditStorage.Rotate` | crates/audit/src/storage.rs:159-197 | the buffer is written out and the current file closed; after it slot j again holds the file closed j rotations ago as far as there is room, so a file is dropped only when all slots are taken; a failed flush may write out some of the buffer and changes nothing else |
| `Storage.AuditStorage.ReadAllEvents` | crates/audit/src/storage.rs:225-242 | returns a contiguous tail of everything ever written: exactly what is not in files closed more than max_files rotations ago |
| `Storage.PlacedInHistory` | crates/audit/src/storage.rs:123-197 | a line written at a place stands in the history of all written lines at the position of that place |
| `Storage.FiledIffRecent` | crates/audit/src/storage.rs:159-197 | the file of a line still exists if and only if no more rotations followed its write than there is room for closed files |
| `Storage.ReadIffRecent` | crates/audit/src/storage.rs:225-242 | reading all events returns the line, by its position, if and only if at most max_files rotations followed its write |
| `Storage.OldestFileLost` | crates/audit/src/storage.rs:170-190 | with room for one closed file, the first of three lines with rotations in between is in no file any more |
| `Storage.AuditStorage.WriteCheckpoint` | crates/audit/src/storage.rs:279-297 | replaces the checkpoint as a whole or leaves the previous one |
| `Storage.AuditStorage.Reopen` | crates/audit/src/storage.rs:101-113 | the next process finds the files as they are, the buffer gone and the size read from the current file |
| `Storage.AuditStorage.Flush` | crates/audit/src/storage.rs:255-261 | moves lines from the front of the buffer to the end of the file: all of them, or those written before the error |
| `Storage.AuditStorage.AppendLine` | crates/audit/src/storage.rs:136-156 | a line is written after the lines left by failed flushes; or the write fails, having drained any number of buffered lines, its own among them if it got that far; the size is that of the lines written successfully and those found at opening |
| `Storage.AuditStorage.WriteEvent` | crates/audit/src/storage.rs:123-156 | rotates exactly when the size of the counted lines has reached the limit, then appends; every line written so far stays in order in closed and current files |
| `LogProtocol.ReplayOutcome` | crates/audit/src/logger.rs:93-101 | replaying any file succeeds exactly when its lines are numbered from 1, and the tree then holds the stored hashes |
| `LogProtocol.ReplayError` | crates/audit/src/logger.rs:93-101 | otherwise it fails with the first line out of sequence |
| `LogProtocol.ReplayHonest` | crates/audit/src/logger.rs:93-101 | replaying an honest log gives back exactly its events and hashes |
| `LogProtocol.RestartAccepts` | crates/audit/src/logger.rs:93-118 | for any file and any checkpoint, the restart succeeds exactly when the numbers run from 1 and count, tag and stored hashes agree with the checkpoint |
| `LogProtocol.RestartBinding` | crates/audit/src/logger.rs:93-118 | a restart on as many events as the checkpoint counts accepts only the committed hashes, or the two trees hashed a colliding pair |
| `LogProtocol.OtherLogRestarts` | crates/audit/src/checkpoint.rs:148-176 | the boundary of that: under any checkpoint with a valid tag an honest chain restarts if and only if it is longer than the checkpoint counts, or as long with the committed root |
| `LogProtocol.TruncationRefused` | crates/audit/src/checkpoint.rs:148-176 | restarting on the first m < n events of an honest log checkpointed at n fails with exactly `TipBehindCheckpoint` n, m |
| `LogProtocol.OtherRootRefused` | crates/audit/src/checkpoint.rs:148-176 | an honest log of the committed length with another root is refused with both roots |
| `LogProtocol.EditedRestarts` | crates/audit/src/logger.rs:93-118 | what that leaves open: an honest log with one operation changed and the stored hash kept restarts under the honest checkpoint, with the new hash in the chain and the old one in the tree |
| `LogProtocol.RestartAfterRotation` | crates/audit/src/logger.rs:93-118 | once events have been rotated out of the current file the restart fails with the exact error, or starts from nothing if the file is empty and no checkpoint exists |
| `LogProtocol.StepKeepsInv` | crates/audit/src/logger.rs:121-173 | every step of a log call, every failed or partial write, flush, rotation, crash and restart keeps: memory an honest chain with its tree, the current file the logged events since it was begun and at most one line of a failed call, the checkpoint committing to a prefix, acknowledged events in place |
| `LogProtocol.RunKeepsInv` | crates/audit/src/logger.rs:93-173 | hence so does every run from a fresh directory |
| `LogProtocol.RestartExactly` | crates/audit/src/logger.rs:93-118 | what the invariant leaves on disk restarts exactly when recoverable, and to exactly the events of the current file |
| `LogProtocol.Recovery` | crates/audit/src/logger.rs:93-173 | after every run a restart succeeds if and only if nothing was logged before the current file was begun and no line was written into it behind a line of a failed call, or it is empty and there is no checkpoint; it then rebuilds chain, tip and tree exactly from the file, which holds every acknowledged event under the checkpoint |
| `LogProtocol.RebuiltAgainstHeld` | crates/audit/src/logger.rs:93-173 | what is rebuilt is what the process held if and only if nothing was logged before the file was begun and no line of a failed call reached it; such a line is exactly one honest event more |
| `LogProtocol.AcknowledgedFate` | crates/audit/src/logger.rs:144-173 | after any run the line of every acknowledged event stands in the history where it was written; it is still in a file, and read back, if and only if no more rotations followed its write than there is room for, and than max_files |
| `LogProtocol.NothingKeptNothingOverrun` | crates/audit/src/storage.rs:145-151 | runs in which no failed write leaves its line in the buffer never leave anything over |
| `LogProtocol.LeftoverRecovered` | crates/audit/src/storage.rs:145-151 | a failed call whose line is flushed later: the restart finds an event the process never held |
| `LogProtocol.OverrunNotRecovered` | crates/audit/src/storage.rs:145-151 | a failed call followed by a successful one: the restart reports a repeated number |
| `LogProtocol.AcknowledgedTailProtected` | crates/audit/src/logger.rs:160-173 | in every recoverable state, cutting the file below an acknowledged event is refused with the two sequence numbers |
| `Logger.LogCall` | crates/audit/src/logger.rs:121-173 | one uninterrupted call: only a written event takes a number, the next one, and a success leaves a checkpoint at that number |
| `Logger.LogCallLogs` | crates/audit/src/logger.rs:121-173 | by its request: an incomplete one changes nothing and the reply names the first missing field; otherwise exactly the event that carries all its fields and the clock reading is logged, if the line is written, and its number replied, if the checkpoint is |
| `Logger.LogCallIsRun` | crates/audit/src/logger.rs:121-173 | a log call, with the rotation that may come due, is a run of the protocol that acknowledges exactly its reply, with an event that carries the request |
| `Logger.Commit` | crates/audit/src/logger.rs:150-173 | chain, tree and checkpoint after the durable write; a failed checkpoint keeps the event and reports the error |
| `Logger.Persist` | crates/audit/src/logger.rs:144-149 | the durable write comes first and, when it fails, leaves chain and tree alone |
| `Logger.AuditLogger.constructor` | crates/audit/src/logger.rs:71-82 | a logger over existing files starts with empty chain and tree |
| `Logger.AuditLogger.ReplayEvent` | crates/audit/src/logger.rs:96-102 | one line: the chain recomputes the hash, the tree takes the stored one |
| `Logger.AuditLogger.ReplayCurrentFile` | crates/audit/src/logger.rs:93-102 | the loop replays the current file, or stops with the error of the first line out of sequence |
| `Logger.AuditLogger.RebuildFromStorage` | crates/audit/src/logger.rs:93-118 | the restart as written equals the specified one, error for error |
| `Logger.AuditLogger.Flush` | crates/audit/src/logger.rs:262-266 | moves buffered lines into the current file, all or those before the error |
| `Logger.AuditLogger.Rotate` | crates/audit/src/logger.rs:268-272 | closes the current file after writing out the buffer; a failed flush only moves lines |
| `Logger.AuditLogger.Log` | crates/audit/src/logger.rs:121-173 | a disabled logger changes nothing; otherwise state and reply are those of one log call |
| `Logger.ProcessSingleEvent` | crates/audit/src/async_logger.rs:237-287 | the asynchronous path makes the same log call |
| `Logger.LogCallSettled` | crates/audit/src/storage.rs:255-261 | a log call does not notice whether leftover lines have been flushed before it |
| `Logger.ProcessBatch` | crates/audit/src/async_logger.rs:210-234 | state, file included, and replies are exactly those of the calls in order and then the flush |
| `Logger.Collect` | crates/audit/src/async_logger.rs:162-190 | a round takes exactly the next waiting requests in order, at least one and at most the batch size |
| `Logger.ScheduleHandlesQueue` | crates/audit/src/async_logger.rs:155-207 | whatever the batches, every request is handled once and in order |
| `Logger.JobsRefineCalls` | crates/audit/src/async_logger.rs:210-287 | any calls and flushes leave, up to lines still buffered, what the calls alone leave, with the same replies |
| `Logger.WriterRefines` | crates/audit/src/async_logger.rs:155-287 | for every batch size, arrival pattern and flush outcome the writer is the one-by-one handling of the queue: same replies, memory, checkpoint and lines |
| `Logger.WriterTask` | crates/audit/src/async_logger.rs:155-207 | the writer loop as written: its exact state and replies, that refinement, and, from any state a protocol run has led to, the exact condition under which what it leaves can be restarted, with every replied number then standing for its request |
| `Logger.RebuiltAtRestart` | crates/audit/src/logger.rs:71-118 | a logger rebuilt after a crash stands where the restarted protocol does, so all of this covers it |
| `Logger.JobsAreRun` | crates/audit/src/async_logger.rs:155-287 | any calls and flushes, from any state a run has led to, continue that run, which acknowledges the replied numbers with events that carry their requests |
| `Logger.JobsRecovered` | crates/audit/src/async_logger.rs:155-287 | after any calls and flushes from any such state, rotations and failures included, a crash is recovered exactly when the run left the files recoverable; the rebuilt memory is the held one under the exact condition, and the event recovered at every replied number carries the fields of that request, under the checkpoint |
| `Logger.JobsMeasured` | crates/audit/src/storage.rs:123-156 | after any calls and flushes, failures and rotations included, the recorded size is that of the events logged since the current file was begun, and it was below the limit before the last of them |
| `Logger.RebuiltMeasured` | crates/audit/src/storage.rs:101-113 | so it is after a restart, which reads the size from the file |
| `Logger.RotatesExactlyWhenFull` | crates/audit/src/storage.rs:131-134 | with no line of a failed call in the file, the recorded size is the size of the file, a call rotates if and only if the file has reached the limit, and without its last line no file with more than one has |
| `Logger.RestartAfterCalls` | crates/audit/src/logger.rs:93-173 | the exact result of a restart after any log calls that leave nothing buffered, whatever rotations came due: the held memory as long as no line was rotated out, else the exact error, or nothing if the file is empty and no checkpoint was written |
| `TamperDetection.IntegrityReport.AddViolation` | crates/audit/src/tamper_detection.rs:99-103 | count, list and flag stay consistent |
| `TamperDetection.VerifyHashChain` | crates/audit/src/tamper_detection.rs:239-252 | reports exactly the events not linked to their predecessor or to the genesis hash, in order |
| `TamperDetection.VerifySequences` | crates/audit/src/tamper_detection.rs:255-277 | reports exactly the duplicates and the gaps, in order |
| `TamperDetection.VerifyEventHashes` | crates/audit/src/tamper_detection.rs:280-291 | reports exactly the events whose stored hash is wrong, in order |
| `TamperDetection.VerifyMerkleConsistency` | crates/audit/src/tamper_detection.rs:302-337 | reports a root that differs from the expected one and nothing else: the inclusion pass never fires |
| `TamperDetection.VerifyInclusions` | crates/audit/src/tamper_detection.rs:328-335 | reports something exactly when an event hash is not a leaf |
| `TamperDetection.VerifyTimestamps` | crates/audit/src/tamper_detection.rs:340-360 | reports exactly the backward jumps of two whole seconds or more |
| `TamperDetection.VerifyIntegrity` | crates/audit/src/tamper_detection.rs:147-176 | the full check reports the violations of all checks in order with the root, or an error for an empty list |
| `TamperDetection.VerifyCommitment` | crates/audit/src/tamper_detection.rs:212-230 | a bad tag is reported and its root ignored; otherwise the root is compared when the tip is the committed one; the recomputed root is recorded |
| `TamperDetection.VerifyIntegrityWithCheckpoint` | crates/audit/src/tamper_detection.rs:186-236 | the same against a checkpoint, with a truncated tail, a bad tag or a differing root reported, and the recomputed root |
| `TamperDetection.QuickVerify` | crates/audit/src/tamper_detection.rs:363-392 | the short-circuiting loop decides the quick condition on every event |
| `TamperDetection.QuickNumbersIncrease` | crates/audit/src/tamper_detection.rs:363-392 | without gaps the numbers strictly increase, so duplicates are possible only as zeros at the start |
| `TamperDetection.QuickEqualsFull` | crates/audit/src/tamper_detection.rs:147-392 | the full check reports nothing but timestamp anomalies if and only if the quick check passes and the list does not begin with two zero numbers |
| `TamperDetection.TwoZeros` | crates/audit/src/tamper_detection.rs:255-392 | and such lists exist: two linked events numbered zero pass the quick check and are reported as a duplicate by the full one |
| `TamperDetection.OneGapReported` | crates/audit/src/tamper_detection.rs:255-278 | a list with one gap in its numbers is reported with that gap and its two neighbours alone |
| `TamperDetection.TruncationReported` | crates/audit/src/tamper_detection.rs:186-236 | an honest log cut below its checkpoint is reported, timestamps aside, with the committed and the last number alone |
| `TamperDetection.EditReported` | crates/audit/src/tamper_detection.rs:280-300 | a changed operation is reported as one wrong hash, stored and recomputed, if it shows in the hash |
| `TamperDetection.DeletionReported` | crates/audit/src/tamper_detection.rs:239-278 | an event taken out is reported as one broken link, unless its neighbours link anyway, and as one gap, except at the start |
| `TamperDetection.CommitmentReported` | crates/audit/src/tamper_detection.rs:186-236 | another root at the committed length is reported with both roots, and a bad tag with the root that is not trusted |
| `TamperDetection.CleanAgainstCheckpoint` | crates/audit/src/tamper_detection.rs:186-236 | a clean report means clean basic checks, a valid tag, a tip not behind the checkpoint and, at the same tip, the committed root |
| `TamperDetection.CommitmentBinding` | crates/audit/src/tamper_detection.rs:186-236 | a list of n events ending in number n, clean against an honest checkpoint of n events, has exactly the committed hashes and hashed bytes in order, or a colliding pair was hashed |
| `TamperDetection.OtherLogReport` | crates/audit/src/tamper_detection.rs:186-236 | the boundary of that binding: under any checkpoint with a valid tag an honest chain is reported clean, timestamps aside, if and only if it is longer than the checkpoint counts, or as long with the committed root |
| `TamperDetection.OneAndAHalfSecondsPass` | crates/audit/src/tamper_detection.rs:340-360 | an event one and a half seconds behind its predecessor is not reported |
| `TamperDetection.TwoTimes` | crates/audit/src/tamper_detection.rs:340-360 | a jump back of two seconds or more is reported with both times, and no smaller one |
| `TamperDetection.HonestReport` | crates/audit/src/tamper_detection.rs:147-236 | an honest log is clean, timestamp anomalies aside, by the full check and against every checkpoint that commits to a prefix of it |
| `Verifier.CheckEvents` | crates/audit/src/verifier.rs:392-427 | Ok exactly when all events pass; otherwise the error of the first event that fails, hash before link before number |
| `Verifier.VerifyHashChain` | crates/audit/src/verifier.rs:392-427 | Ok exactly for the lists all verifiers accept |
| `Verifier.VerifyRange` | crates/audit/src/verifier.rs:457-506 | the same on a range, whose first link is not looked at; out-of-bounds ranges are rejected |
| `Verifier.RangesCompose` | crates/audit/src/verifier.rs:457-506 | adjoining ranges sharing an event verify if and only if their union does |
| `Verifier.OneGapVerdict` | crates/audit/src/verifier.rs:392-428 | on a list with one gap the verdict names the expected and the found number |
| `Verifier.EditVerdict` | crates/audit/src/verifier.rs:392-428 | on an honest log with one changed operation it names the event and both hashes |
| `Verifier.DeletionVerdict` | crates/audit/src/verifier.rs:392-428 | on an honest log without one event it names the broken link, and at the start, where the link is not looked at, the number |
| `Verifier.VerifyEvents` | crates/audit/src/verifier.rs:346-389 | passes exactly the same lists, and otherwise lists every bad hash, number and link with the count of right hashes |
| `Verifier.GenerateReport` | crates/audit/src/verifier.rs:529-579 | valid for exactly the same lists; the counters count right hashes, and numbers and links up to the first bad one |
| `Verifier.VerifyMerkleTree` | crates/audit/src/verifier.rs:430-454 | Ok exactly when the root of the event hashes is the expected one; the inclusion pass never fails |
| `Verifier.VerifiersAgree` | crates/audit/src/verifier.rs:346-506 | the full range and the whole list are accepted together; a list is an honest chain exactly when these verifiers accept it and it starts from the genesis hash, and exactly when the quick check accepts it and it starts at number 1 |
| `Cluster.VoteStands` | crates/cluster/src/node.rs:314-349 | a granted vote stands, or the term has moved on, through any further requests until the node restarts |
| `Cluster.OneVotePerTerm` | crates/cluster/src/node.rs:314-349 | a node grants two candidates in one term only across a restart, over every order, loss and repetition of requests |
| `Cluster.RepeatedRequestGranted` | crates/cluster/src/node.rs:314-349 | a repeated request of the candidate already voted for is granted while the term stands and the node has not restarted |
| `Cluster.QuorumSize` | crates/cluster/src/node.rs:357-360 | the quorum is the smallest strict majority of the peers and the node itself |
| `Cluster.QuorumsMeet` | crates/cluster/src/node.rs:357-360 | two quorums share at least one node, two in a cluster of even size |
| `Cluster.TwoWinnersNeedRestarts` | crates/cluster/src/node.rs:314-360 | over every order, loss and repetition of requests, two winners of a term need at least that many restarting nodes |
| `Cluster.RestartsAllowTwoWinners` | crates/cluster/src/node.rs:314-360 | and any that many suffice: some schedule in which exactly they restart elects both candidates, since votes are kept in memory |
| `Cluster.ElectionSafety` | crates/cluster/src/node.rs:314-360 | a set of restarting nodes admits two winners of one term if and only if it has at least as many nodes as two quorums overlap in |
| `Cluster.OneWinnerWithoutRestarts` | crates/cluster/src/node.rs:314-360 | without restarts there is at most one winner per term |
| `Cluster.SigningAcceptedIffFirst` | crates/cluster/src/node.rs:227-277 | a signing attempt is accepted exactly when the same key and message do not occur earlier in the log, whatever happens to the key in between; every other command succeeds |
| `Cluster.NoPairAcceptedTwice` | crates/cluster/src/node.rs:227-277 | a repeated attempt is always answered with the double-signing error |
| `Cluster.KeyHeldIffStoredLast` | crates/cluster/src/node.rs:227-239 | after every log a key is held, with that data, exactly when the last command that names it stores that data |
| `Cluster.SessionHeldIffCreatedLast` | crates/cluster/src/node.rs:258-267 | and a session exactly when the last command that names it creates it |
| `Cluster.RecordListsFirstAttempts` | crates/cluster/src/node.rs:241-257 | the signing record of a key lists the hashes of its first attempts in the order of the log, and nothing else |
| `Cluster.CellDependsOnOwnCommands` | crates/cluster/src/node.rs:227-269 | a key, session or signing record depends only on the commands that name it |
| `Cluster.InterleavingsConverge` | crates/cluster/src/node.rs:227-269 | logs that agree on the commands of every id lead to one state, however they interleave |
| `Cluster.OutcomeDependsOnOwnCommands` | crates/cluster/src/node.rs:227-277 | and so do the outcomes |
| `Cluster.ClusterNode.HandleRequestVote` | crates/cluster/src/node.rs:314-349 | the handler makes exactly the specified vote transition |
| `Cluster.ClusterNode.ApplyCommand` | crates/cluster/src/node.rs:227-269 | the handler makes exactly the specified state transition |
| `Cluster.ClusterNode.constructor` | crates/cluster/src/node.rs:98-113 | a node starts at term 0 without a vote and with an empty state machine |
| `Signature.IntegerOctetsCanonical` | sdks/go/crypto.go:157-192 | the emitted INTEGERs are non-negative and minimal (section 8.3 of X.690) and lose nothing of the 32-byte number |
| `Signature.IntegerOctetsValue` | sdks/go/crypto.go:157-192 | they have the value of the number they were made from |
| `Signature.PaddedIntegerOctets` | sdks/go/crypto.go:112-192 | minimal octets of a value below 2^256 come back from the padded number |
| `Signature.RawRoundTrip` | sdks/go/crypto.go:112-192 | raw to DER and back is the identity on every 64-byte signature, and the DER form is canonical byte by byte: a length byte that counts what follows it and two minimal INTEGERs that fill it (section 2.2.3 of RFC 3279) |
| `Signature.DerRoundTrip` | sdks/go/crypto.go:112-192 | DER to raw and back returns a SEQUENCE unchanged if and only if its bytes are such a canonical form of two values below 2^256 |
| `Signature.StopsExactly` | sdks/go/crypto.go:112-154 | byte by byte, exactly the inputs on which an index or slice bound is out of range and the program stops |
| `Signature.RefusesExactly` | sdks/go/crypto.go:112-154 | and exactly those that are refused, for a byte other than the INTEGER tag |
| `Signature.ConversionKeepsValues` | sdks/go/crypto.go:112-154 | everything else that is converted, canonical or not, keeps the values of its two INTEGERs |
| `Signature.ConvertDerToRaw` | sdks/go/crypto.go:112-154 | the conversion as written for every slice and every spare capacity: result, format error, or stop |
| `Signature.MinimalInteger` | sdks/go/crypto.go:160-177 | the trimming loop computes the minimal octets |
| `Signature.ConvertRawToDer` | sdks/go/crypto.go:157-192 | the conversion as written, with input of any other length returned as it is |
| `Signature.PadBuffer` | sdks/go/crypto.go:145-151 | copying to the end of a zeroed buffer pads on the left to 32 bytes |
| `Backup.IncrementalBackupManager.CreateBackup` | crates/backup/src/incremental.rs:163-191 | the backup holds the entries and their ids in order with the parent, and tracking starts anew |
| `Backup.IncrementalBackupManager.RestoreFromChain` | crates/backup/src/incremental.rs:194-222 | applies all backups in order, later entries over earlier ones; an empty chain or a first backup that is not full is an error |
| `Backup.RestoredIffRecorded` | crates/backup/src/incremental.rs:194-222 | a chain restores exactly the ids listed in its metadata |
| `Backup.IncrementalBackupManager.ValidateChain` | crates/backup/src/incremental.rs:225-257 | Ok exactly for a full backup followed by incrementals each naming the one before it; otherwise the error of the first bad link |
| `Backup.RecordedInHistory` | crates/backup/src/incremental.rs:163-191 | which ids the metadata of the current chain lists, read from the history |
| `Backup.RestoreFaithful` | crates/backup/src/incremental.rs:140-257 | for every history of upserts, deletions and backups the chain validates and restores every key live at the last backup with its value then; it restores exactly that store if and only if no key listed by a backup of the chain was deleted afterwards without being written again before the last backup |
| `Backup.DeletedKeyRestored` | crates/backup/src/incremental.rs:194-222 | a lost deletion: a key deleted after the full backup comes back |
| `Backup.RestoreExactWithoutDeletions` | crates/backup/src/incremental.rs:140-257 | without deletions the restored store is the live store at the last backup |
| `Client.OpensExactlyAtThreshold` | sdks/go/client.go:166-194 | from closed, the breaker opens exactly on the failure that makes the threshold since the last success or reset |
| `Client.RefusedExactlyBeforeRecovery` | sdks/go/client.go:145-163 | requests are refused exactly while open and less than the recovery time after the last failure |
| `Client.ClosesOnlyAfterProbe` | sdks/go/client.go:145-194 | every return to closed other than by reset completes the required successes, uninterrupted since a probe made no sooner than the recovery time after the last failure |
| `Client.ClosedAfterProbe` | sdks/go/client.go:145-179 | conversely, undisturbed since a probe, it is closed exactly once the required successes were made, and half-open before |
| `Client.ResetCloses` | sdks/go/client.go:204-210 | a reset closes it from every state, and fewer calls than the threshold do not open it again |
| `Client.CircuitBreaker.constructor` | sdks/go/client.go:135-142 | a new breaker is closed with no history |
| `Client.CircuitBreaker.MayRequest` | sdks/go/client.go:145-163 | the answer and the new state follow from the history of calls |
| `Client.CircuitBreaker.RecordSuccess` | sdks/go/client.go:166-179 | the state stays that of the history with the success added |
| `Client.CircuitBreaker.RecordFailure` | sdks/go/client.go:182-194 | the state stays that of the history with the failure added |
| `Client.CircuitBreaker.ResetBreaker` | sdks/go/client.go:204-210 | the state stays that of the history with the reset added |
| `Client.SendWasPermitted` | sdks/go/client.go:268-271 | in a trace with nothing out of turn every send follows, with only other requests in between, a question of its own that the breaker answered yes |
| `Client.SendWasReported` | sdks/go/client.go:296-329 | every send is reported to the breaker before anything else is done for its request |
| `Client.ReportWasSent` | sdks/go/client.go:296-329 | and every report belongs to a send just before it, so none is reported twice |
| `Client.HsmClient.Try` | sdks/go/client.go:268-329 | one attempt, with other requests using the breaker at any point: question, send if allowed, report |
| `Client.HsmClient.Request` | sdks/go/client.go:268-332 | whatever the attempts meet and others do, nothing is out of turn; a listed status with retries left and a completed wait, and only that, leads to the next attempt, any other status ends the request with its code; every attempt is sent unless refused or not built, at most maxRetries + 1 |
| `Client.HsmClient.Send` | sdks/go/client.go:335-347 | a whole request from its first attempt: answered exactly when its last report is a success, with exactly the sends its attempts call for |

## Left out

- The insides of SHA-256, HMAC, JSON and RFC 3339 printing: parameters of the model.
- 64-bit overflow of sequence numbers and terms: they are natural numbers; only the tag and the event hash use their low 64 bits.
- Lines torn by a crash in the middle of a write, unsynced writes, and a logger that does not rebuild on start.
- Rotate: renames and openings that fail during a rotation, which leave the log file closed. The branch that removes a file in `crates/audit/src/storage.rs:175-177` can never be taken and is not modelled.
- WriteEvent: the same, when a rotation comes due in it.
- HandleRequestVote: the candidate's log position is an argument that the source does not look at either; comparing logs is not part of it.
- VerifyIntegrityWithCheckpoint: a report entry keeps the numbers and hashes of a message, not its text.
- TamperDetector's range and periodic checks, the getters of all parts, `filter_keys_by_timestamp`, `GetDelay` and sleeping: they would only add easy members.
- Proposing, the election timer and replication in the cluster node: stubs in the source.
- Shamir sharing, the enhanced storage, streaming backup, transport, authentication, configuration and user interface.
