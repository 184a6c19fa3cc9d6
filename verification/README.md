# Elydora evidence chain

A Dafny 4.11 model of the Elydora evidence chain and of what is read off it. Agents sign
operation records; the server appends each accepted record to the agent's hash chain, stores
the record and a signed receipt beside it, and rolls the chains up into Merkle epochs; a
generated hook keeps a local chain head in step with the server; audit pages, a PDF report and
a configuration editor stand on top. `dafny verify dfyconfig.toml` checks everything.

How the parts are modelled:

- `Server` is a step machine: one step per access to the cache, the database or the object
  store. A run is any sequence of labels, so a statement about all runs is one about every
  interleaving of any number of submissions with freezing, unfreezing, key revocation, nonce
  expiry, crashes and the epoch scheduler. A database batch is one step
  (packages/server/src/adapters/postgres.ts:90-109). `ServerInvariants`, `ServerEvidence`,
  `ServerSubmit`, `ServerStanding`, `ServerReplay`, `ServerEpochs` and `ServerVerify` prove
  what holds of every run; `ServerAnswers` says what a submission is answered and leaves, by
  its fields alone, and `ServerSound` what a verdict means and that tampering ends it;
  `ServerOverwrite` says exactly when a submission replaces the objects of a committed
  operation; `ServerStore` has the same services as methods on mutable stores, each proved to
  be one uninterrupted run.
- `Hook` puts any number of hook processes beside that machine; `HookSubmit` is the retry loop
  of one process; `Lock` takes the lock file apart into system calls, `HookLock` runs the
  hook processes over those calls and proves what holds of every run and when moving the
  chain-state file is one step, `HookTries` says what each step does and how often a hook
  tries, and `HookRace` is a whole run in which moving is not one step.
- `Merkle`, `MerkleServer`, `MerkleRoots`, `Chain`, `Base64url`, `Json`, `Jcs`, `HashedBytes`,
  `Encodings`, `Canonicalisers` and `SdkTexts` are the hashes' inputs: trees, chain texts,
  base64url, and the canonical form in three languages; `Base64Digits`, `JsonExact` and
  `CanonExact` give their texts to the letter. `Text` and `Order` hold decimal numerals,
  separators and sorting.
- `Pagination`, `Audit`, `AuditPages`, `AuditExact`, `PdfPages`, `PdfContent`, `PdfFile`,
  `PdfReader`, `PdfReport`, `JsonTree`, `ConfigEdit`, `ConfigRender`, `ConfigOutside` and
  `ConfigExact` are the derived views.

Hashing and signing are parameters. What a result needs of the hash is a hypothesis on the
finite set of texts, pairs or byte strings at hand (`Chain.CollisionFree`,
`Chain.GenesisFresh`, `MerkleServer.ByteFree`), because no function
into 43 symbols is injective on all texts. `verify` is any predicate; nothing asks it to be
unforgeable. Strings that are only stored and compared are Dafny strings; where UTF-16
units, code points or bytes matter they are sequences of numbers. Numbers in JSON and clock
readings are the safe integers, `Text.SafeInt`.

What is false of the code is stated with its exact condition beside a failing family:

- chain texts: `Chain.InputPinsDown`, and `Chain.BarAmbiguity` where it fails;
- a committed row's objects stay its own: `ServerOverwrite.FaithfulExactly` for one
  submission and `ServerOverwrite.FaithfulRunsExactly` for any interleaving, and
  `ServerOverwrite.ReusedIdReplacesEvidence`;
- a committed row verifies: `ServerOverwrite.VerifiesExactly` with
  `ServerEvidence.PayloadMeetsReceipt`, and `ServerOverwrite.ReceiptReplacesEvidence`;
- only leaves have proofs: `MerkleServer.ServerProvableExactly` with
  `MerkleServer.PairsAlikeExactly`, and `MerkleServer.ShiftedSplitProves`;
- the root binds the leaves: `MerkleRoots.RootsAgreeExactly`, and `Merkle.RootAloneDoesNotBind`;
- the SDKs agree: `SdkTexts.NodeAgreesExactly`, and `SdkTexts.AstralKeysDisagree`;
- at most one call holds the lock: `Lock.StepKeepsExclusive`, and `Lock.ReclaimLosesUpdate`;
- the chain-state file never moves back: `HookLock.MovesBackExactly`, and
  `HookRace.FileMovesBack`;
- only a hook's last post is committed: `Hook.AtMostOneCommitted`, and
  `Hook.SecondDeliveryIsRejected`.

## Model

| member | source | states |
|---|---|---|
| `Chain.InputPinsDown` | packages/server/src/utils/crypto.ts:191-199 | Two chain-hash texts are equal exactly when predecessor, issue time and the joined middle part are, whatever payload hash and operation id contain |
| `Chain.BarAmbiguity` | packages/server/src/utils/crypto.ts:197 | Concrete fields with a bar whose chain-hash texts coincide: why the tamper-evidence results ask for bar-free fields |
| `Chain.TamperEvidence` | packages/server/src/utils/crypto.ts:191-199 | Two well-linked chains from genesis that end in the same hash are the same chain, operation by operation, under collision freedom on the texts they hash |
| `Chain.HeadsDistinct` | packages/server/src/utils/crypto.ts:191-199 | Every prefix of a trusted chain has its own head, so no hash occurs twice |
| `Chain.RewriteMovesHead` | packages/server/src/services/operation-verify.ts:79-104 | Changing any one operation of a chain changes its final hash |
| `Base64url.Base64urlDecode` | packages/server/src/utils/crypto.ts:8-21 | The padding and byte loops compute the decoding, and fail exactly where atob does |
| `Base64url.Base64urlEncode` | packages/server/src/utils/crypto.ts:24-33 | The character loop and the replacements compute the unpadded encoding |
| `Base64url.RoundTrip` | packages/server/src/utils/crypto.ts:8-33 | Decoding inverts encoding for every byte sequence |
| `Base64url.EncodeInjective` | packages/server/src/utils/crypto.ts:24-33 | Different byte sequences have different encodings |
| `Base64url.EncodeShape` | packages/server/src/utils/crypto.ts:24-33 | n bytes encode to ceil(4n/3) symbols of the url alphabet, without padding, bar, slash or newline |
| `Base64url.SpareBitsAreDropped` | packages/server/src/utils/crypto.ts:8-21 | Two different texts that decode to the same byte: decoding is not injective on texts |
| `Base64url.KeyAcceptedExactly` | sdks/node/src/plugins/hook-template.ts:83-95 | The hook accepts a key file exactly when its one line is the encoding of a 32-byte seed, and then reads that seed |
| `Base64url.KeyFileExactly` | sdks/node/src/plugins/hook-template.ts:83-95 | Such a file is the seed's text alone, or with one of the two line endings after it |
| `Base64Digits.EncodeDigits` | packages/server/src/utils/crypto.ts:24-33 | Every symbol of an encoding is the url digit, to base 64, of its place in the number that its three bytes make |
| `Base64Digits.DecodeDigits` | packages/server/src/utils/crypto.ts:8-21 | A text of the url alphabet fails to decode exactly when one symbol is left over; otherwise its bytes are the digits, to base 256, of the numbers that its symbols make |
| `Base64Digits.ForeignFails` | packages/server/src/utils/crypto.ts:8-21 | and a text with a character of neither alphabet that is no padding and no space does not decode |
| `Base64Digits.GenesisIsZero` | packages/server/src/services/operation-eor.ts:6-7 | The hash that stands for no predecessor is the encoding of 32 zero bytes |
| `Merkle.BuildMerkleTree` | packages/server/src/utils/merkle.ts:50-86 | The layer loop builds the sorted leaves, their operation ids and every layer of the tree |
| `Merkle.GetMerkleProof` | packages/server/src/utils/merkle.ts:93-121 | The index loop collects the siblings and sides of the first leaf with the hash, and nothing for a hash that is no leaf |
| `Merkle.VerifyMerkleProof` | packages/server/src/utils/merkle.ts:128-142 | The fold from the leaf decides whether the recorded path leads to the root |
| `Merkle.LayersChained` | packages/server/src/utils/merkle.ts:67-78 | Each layer is made from the one below it, and the last holds the root alone |
| `Merkle.LayerSize` | packages/server/src/utils/merkle.ts:67-78 | Layer k over n leaves has ceil(n / 2^k) nodes |
| `Merkle.FoldReachesTop` | packages/server/src/utils/merkle.ts:103-139 | From any node of any layer the collected siblings fold to the root, through duplicated last nodes as well |
| `Merkle.ProofsVerify` | packages/server/src/utils/merkle.ts:93-142 | Every leaf of every tree, for every leaf count, has a proof that verifies |
| `Merkle.ProofSound` | packages/server/src/utils/merkle.ts:128-142 | For any pair hash that does not collide on the pairs involved, a verified proof k levels short of the depth proves a node of layer k, and a full-length one a leaf |
| `Merkle.ProvableExactly` | packages/server/src/utils/merkle.ts:93-142 | For such a pair hash a text has a verifying full-length proof exactly when it is one of the leaves |
| `Merkle.InnerNodeVerifies` | packages/server/src/utils/merkle.ts:128-142 | A shorter path proves an inner node: the length is part of the statement |
| `Merkle.LeavesAreSorted` | packages/server/src/utils/merkle.ts:54-62 | The leaves are the input hashes in order, and each operation id stays beside its own hash |
| `Merkle.RootIgnoresOrder` | packages/server/src/utils/merkle.ts:54-85 | The root depends on the multiset of leaf hashes alone, not on the input order |
| `Merkle.RootBinds` | packages/server/src/services/epoch-service.ts:116-125 | Leaf count and root together determine the sorted leaves, when the pair hash does not collide |
| `Merkle.RootAloneDoesNotBind` | packages/server/src/utils/merkle.ts:69-72 | Without the count they do not: an odd tree and its padded form share a root |
| `MerkleRoots.RootsAgreeExactly` | packages/server/src/utils/merkle.ts:66-85 | Exactly when two leaf sequences share a root: when they come to the same leaves with every repetition written out, the deeper one taken from the layer of equal depth |
| `MerkleRoots.FullOfPadded` | packages/server/src/utils/merkle.ts:69-72 | A layer and its padded form come to the same leaves |
| `MerkleRoots.NodeAbove` | packages/server/src/utils/merkle.ts:67-78 | A node is the pair hash of the two nodes below it, left before right, the last standing in for a missing one |
| `MerkleRoots.RootIsTop` | packages/server/src/utils/merkle.ts:80-86 | No leaves have no root, one leaf is its own, and otherwise the root is the one node of the last layer |
| `MerkleRoots.LeavesAscend` | packages/server/src/utils/merkle.ts:54-62 | The leaves ascend character by character, each hash with its own operation id |
| `MerkleServer.ServerPairIs` | packages/server/src/utils/merkle.ts:36-43 | The pair hash fails exactly on a text that does not decode, and is otherwise the encoded hash of the joined bytes |
| `MerkleServer.PairsAlikeExactly` | packages/server/src/utils/merkle.ts:36-43 | Two pairs of texts have one pair hash exactly when their decoded bytes join to one string, where SHA-256 does not collide on the two |
| `MerkleServer.PairCollisionIsHashCollision` | packages/server/src/utils/merkle.ts:36-43 | Equal pair hashes of 43-symbol digests mean the same pair or a SHA-256 collision |
| `MerkleServer.SpareBitsPairAlike` | packages/server/src/utils/merkle.ts:36-43 | Off digests they do not: two spellings of one byte pair alike |
| `MerkleServer.ShiftedSplitPairsAlike` | packages/server/src/utils/merkle.ts:36-43 | and every other split of the joined bytes pairs alike, too |
| `MerkleServer.ServerProvableExactly` | packages/server/src/utils/merkle.ts:128-142 | Under the server's own pair hash, exactly which texts have a full-length proof that verifies: those whose bytes are an end of the joined bytes of two neighbouring leaves; among digests exactly the leaves |
| `MerkleServer.ServerProofSound` | packages/server/src/utils/merkle.ts:128-142 | A verifying full-length proof of a digest proves a leaf, whatever texts its siblings are, when SHA-256 does not collide on the byte strings hashed |
| `MerkleServer.ShiftedSplitProves` | packages/server/src/utils/merkle.ts:36-43 | The failing family: the first 31 bytes of any two neighbouring leaves are no leaf and have a verifying full-length proof |
| `ServerInvariants.LatestExactly` | packages/server/src/services/operation-submit.ts:88-93 | The head query finds the agent's row with the greatest number, and none exactly when there is none |
| `ServerInvariants.LatestIsHead` | packages/server/src/services/operation-submit.ts:88-96 | The head query returns the end of the agent's chain, and none exactly when it is empty |
| `ServerInvariants.SeqTakenExactly` | packages/server/migrations/001_initial.sql:83-102 | A sequence number is taken exactly when it is one of 1..n |
| `ServerInvariants.InsertLinks` | packages/server/src/services/operation-submit.ts:219-232 | An insert that meets no taken number extends the chain by one link on its head, however stale the head read was |
| `ServerInvariants.CommitExtends` | packages/server/src/services/operation-submit.ts:180-232 | The batch either extends the chain by the submission's own row or leaves both tables as they were, and a lost race is answered with a head of the chain |
| `ServerInvariants.ThreadStable` | packages/server/src/services/operation-submit.ts:87-108 | What a submission has established survives any steps of the others |
| `ServerInvariants.StepKeepsCore` | packages/server/src/services/operation-submit.ts:15-250 | Every step of every submission, administrator, cache expiry and scheduler keeps the chains linked, the tables in step and each submission's standing |
| `ServerInvariants.RunKeepsCore` | packages/server/src/services/operation-submit.ts:15-250 | So does every run |
| `ServerInvariants.ChainIntegrity` | packages/server/src/services/operation-submit.ts:87-232 | After any interleaving an agent's rows are numbered 1..n once each, start at genesis, link hash to hash, and every hash recomputes |
| `ServerInvariants.LogOnlyGrows` | packages/server/src/services/operation-submit.ts:183-220 | Committed rows are never changed or removed |
| `ServerInvariants.OneSuccessor` | packages/server/src/services/operation-submit.ts:95-100 | No fork: a chain hash is the predecessor of at most one committed operation |
| `ServerInvariants.CommittedAtMostOnce` | packages/server/src/services/operation-submit.ts:28-36 | A signed record is committed at most once over any run, even when its nonce check raced or its nonce expired |
| `ServerInvariants.SpentPredecessorStaysSpent` | packages/server/src/services/operation-submit.ts:95-100 | Once a predecessor has a successor it is never the head again, in any continuation |
| `ServerAnswers.BlankExactly` | packages/server/src/services/operation-eor.ts:53-55 | A text is blank exactly when it has no character but those that trim takes off |
| `ServerAnswers.ValidationExactly` | packages/server/src/services/operation-eor.ts:31-76 | Each refusal of a record by its fields, and its acceptance: malformed, expired, too large, in this order |
| `ServerAnswers.RefusedExactly` | packages/server/src/services/operation-submit.ts:24-85 | For each code exactly which lone submissions are refused with it, by the cache, the agents' and the keys' tables and the record's fields; no other is refused with any |
| `ServerAnswers.DecidedExactly` | packages/server/src/services/operation-submit.ts:87-232 | A record that is refused with none is told the head exactly when it names another predecessor, is accepted exactly when it names the head and operation and receipt id are new, and fails otherwise |
| `ServerAnswers.AcceptedLeaves` | packages/server/src/services/operation-submit.ts:102-220 | An accepted record leaves a row made column by column of its own fields, its chain hash that of the joined text, a receipt whose hash is that of its members and whose signature is over that hash, and both objects under the two keys of its ids |
| `ServerAnswers.TouchesExactly` | packages/server/src/services/operation-submit.ts:15-250 | What a lone submission changes at all: the nonce once it is valid, the tables when it is accepted, the objects when it names the head, and nothing of anybody else's |
| `ServerAnswers.AcceptedEverywhere` | packages/server/src/services/operation-submit.ts:102-249 | After any interleaving an accepted submission's row is in the table, made of its own fields, and its receipt is the row's, hashed and signed |
| `ServerAnswers.CommitExactly` | packages/server/src/services/operation-submit.ts:180-220 | The commit, whatever has happened since the head was read: late exactly when the chain has got that far, a failure on a repeated id, and otherwise a row of the record's own fields under the next number |
| `ServerAnswers.LostRaceExactly` | packages/server/src/services/operation-submit.ts:219-232 | A lost race is always answered with the head of the chain as it now is, which is not the hash that the record names |
| `ServerAnswers.FrozenIsRefused` | packages/server/src/services/agent-service.ts:203-260 | From when an agent is frozen until it is unfrozen, whatever runs meanwhile, a valid new record of its is refused for that |
| `ServerAnswers.RevokedKeyIsRefused` | packages/server/src/services/agent-service.ts:396-469 | and from when a key is revoked, a valid new record of its active agent under it |
| `ServerReplay.NonceTextsMeet` | packages/server/src/services/operation-submit.ts:29 | Two records share a cache key exactly when organisation, colon and nonce join to one text, for organisations without a colon when both are the same |
| `ServerReplay.NonceSteps` | packages/server/src/services/operation-submit.ts:28-36 | A stored nonce ends a submission as a replay; any other is stored, by the step after the look and by no other |
| `ServerReplay.NonceStays` | packages/server/src/services/operation-submit.ts:34-36 | After any interleaving the nonce of a submission that has gone past the cache is in it until it expires there |
| `ServerReplay.ReplayIsKeptOut` | packages/server/src/services/operation-submit.ts:28-36 | and a record that arrives later with that organisation and nonce, whatever is interleaved, is turned away at the cache or before, so that it is not accepted and stores nothing |
| `ServerEvidence.PayloadKeyInjective` | packages/server/src/services/operation-submit.ts:111 | Evidence keys are equal exactly when organisation, agent and operation are, as long as organisation and agent have no slash |
| `ServerEvidence.PayloadMeetsReceipt` | packages/server/src/services/operation-submit.ts:111-175 | An evidence key is a receipt key exactly when both belong to one agent and the operation id is "receipts/" and the other's id |
| `ServerEvidence.KeyEpochSide` | packages/server/src/services/epoch-service.ts:79-125 | A submission's key lies under the epochs' prefix exactly when its organisation id does |
| `ServerEvidence.KindsApart` | packages/server/src/services/operation-submit.ts:133-178 | No write turns a stored object into one of another kind |
| `ServerEvidence.StepKeepsEvid` | packages/server/src/services/operation-submit.ts:133-178 | Every step that writes no object under an id beginning with "receipts/" or a slashed owner keeps each committed row's evidence and receipt in the store, verifiable; nothing is asked of submissions that are refused before they write |
| `ServerEvidence.RunKeepsEvid` | packages/server/src/services/operation-submit.ts:133-178 | So does every run of such writes |
| `ServerEvidence.RunKeepsWindows` | packages/server/src/services/epoch-service.ts:87-95 | Every run, whatever is submitted, keeps epochs on whole windows, one each, and the scheduler at a window that has none |
| `ServerEvidence.RunKeepsEpochs` | packages/server/src/services/epoch-service.ts:97-140 | Every run that writes no object under the epochs' key prefix keeps every epoch's stored tree and root |
| `ServerEvidence.TreeOfOk` | packages/server/src/services/epoch-service.ts:97-110 | A built epoch's tree is well formed and has every queried operation among its leaves |
| `ServerEpochs.EpochSound` | packages/server/src/services/epoch-service.ts:79-140 | After any interleaving an epoch's object holds exactly the chain hashes and operation ids, with multiplicity, of its organisation's operations in its window as the table stood at one moment; root, leaf count, key and end are theirs |
| `ServerEpochs.LeafIsCommitted` | packages/server/src/services/epoch-service.ts:97-110 | So every leaf is a committed operation's of that organisation and window |
| `ServerEpochs.CommittedIsLeaf` | packages/server/src/services/epoch-service.ts:97-110 | and every such operation in the table at that moment is a leaf |
| `ServerSubmit.SubmitAlone` | packages/server/src/services/operation-submit.ts:15-250 | The sequential meaning, whatever the ids: past the first checks a submission is accepted exactly when it names the head and its ids are new, then its row ends the chain; a wrong predecessor is answered with the head and writes nothing; the right one has stored record and receipt even when the commit fails |
| `ServerOverwrite.FaithfulExactly` | packages/server/src/services/operation-submit.ts:111-178 | Exactly which submissions leave a committed row's stored record and receipt its own: those that do not name the current head or whose two keys are neither of the row's two, accepted or not |
| `ServerOverwrite.KeysMeetExactly` | packages/server/src/services/operation-submit.ts:111-175 | With slash-free owners those keys meet exactly on a reused operation id or on ids that differ by a leading "receipts/" |
| `ServerOverwrite.ReusedIdReplacesEvidence` | packages/server/src/services/operation-submit.ts:133-232 | The failing family: a resubmission of a committed operation id that names the head is refused, and the row's stored record is no longer its own |
| `ServerOverwrite.VerifiesExactly` | packages/server/src/services/operation-verify.ts:54-148 | Exactly when a committed row still verifies after a submission: when that does not name the head, or neither puts its receipt under the row's evidence key nor its record under the row's receipt key, the latter excepted when the record's own unsigned members read as a receipt with the matching hash |
| `ServerOverwrite.ReceiptReplacesEvidence` | packages/server/src/services/operation-submit.ts:133-178 | The failing run: an operation with the id "receipts/"x commits and verifies, then a submission with the id x leaves it committed with a signature that no longer verifies |
| `ServerSubmit.RunKeepsOrigins` | packages/server/src/services/operation-submit.ts:180-249 | Every committed row comes from a submission that is past its commit |
| `ServerOverwrite.StepFaithfulExactly` | packages/server/src/services/operation-submit.ts:111-232 | A step keeps every committed row's stored record and receipt its own exactly when its put is harmless to each row and its insert finds its own objects in place, both of which can be told before the step |
| `ServerOverwrite.FaithfulRunsExactly` | packages/server/src/services/operation-submit.ts:111-232 | so in every state of any interleaving the rows' objects are their own exactly when each step of it is of that kind |
| `ServerOverwrite.EvidenceMatchesRow` | packages/server/src/services/operation-submit.ts:133-178 | In particular, when no record is put where an object already is, each committed row's stored record and receipt are its own in every reachable state; refused submissions, which put nothing, may reuse any id |
| `ServerStore.Store.SubmitOperation` | packages/server/src/services/operation-submit.ts:15-250 | The service method, in place on the stores, ends in the state and the answer of one uninterrupted run of the step machine; its nonce is stored exactly when the record is valid, and the answer is a replay exactly when it was there before |
| `ServerStore.Store.Persist` | packages/server/src/services/operation-submit.ts:180-249 | The commit part: both inserts or neither, the winner's hash for a lost number, the receipt otherwise |
| `ServerStore.Store.FreezeAgent` | packages/server/src/services/agent-service.ts:203-260 | An active agent of the organisation is frozen afterwards, every other agent and store is as it was, and anything else is declined and changes nothing |
| `ServerStore.Store.UnfreezeAgent` | packages/server/src/services/agent-service.ts:266-320 | A frozen agent of the organisation is active afterwards, and nothing else changes |
| `ServerStore.Store.RevokeKey` | packages/server/src/services/agent-service.ts:396-469 | A key of the organisation's agent that is not revoked is revoked afterwards, owner and text kept, and nothing else changes |
| `ServerStore.Store.CreateEpoch` | packages/server/src/services/epoch-service.ts:79-162 | One organisation's epoch is the machine's four steps; it is created exactly when the window has operations and no epoch |
| `ServerStore.Store.RunEpochCreation` | packages/server/src/scheduler.ts:37-86 | After a pass every organisation with an operation in the last whole window has an epoch for it, and older epochs stay |
| `ServerStore.DistinctOrgs` | packages/server/src/scheduler.ts:43-48 | Each organisation with an operation in the window, once |
| `ServerStanding.OnlyPastSubmissionsCommit` | packages/server/src/services/agent-service.ts:203-260 | From any state with the agent frozen or revoked, over any run that does not unfreeze it, each operation it gains is that of a submission that was past the agent check when the run began |
| `ServerStanding.BarredAgentCommitsNothing` | packages/server/src/services/agent-service.ts:203-260 | so an agent with no submission past that check gains none at all |
| `ServerStanding.OnlyPastKeyReadersCommit` | packages/server/src/services/agent-service.ts:396-469 | From any state with the key revoked, over any run, each operation committed under it is that of a submission that was past the key check when the run began |
| `ServerStanding.RevokedKeyCommitsNothing` | packages/server/src/services/agent-service.ts:396-469 | so a key with no submission past that check commits nothing ever again |
| `ServerStanding.ThreadAfter` | packages/server/src/services/operation-submit.ts:38-72 | A step moves on at most the submission that takes it |
| `ServerStanding.StatusAfter` | packages/server/src/services/agent-service.ts:203-320 | What any step does to one agent: freezing freezes it and unfreezing reactivates it unless it was revoked, nothing else changes it, and only a registration with keys that nobody has makes one |
| `ServerStanding.KeyStatusAfter` | packages/server/src/services/agent-service.ts:396-469 | What any step does to one key: only its own revocation changes it, and never its owner or its text |
| `ServerStanding.FrozenUntilUnfrozen` | packages/server/src/services/agent-service.ts:203-260 | A frozen agent is frozen after every run that does not unfreeze it |
| `ServerStanding.RevokedForGood` | packages/server/src/services/agent-service.ts:396-469 | A revoked key is revoked after every run |
| `ServerStanding.AddedRow` | packages/server/src/services/operation-submit.ts:180-220 | A step adds at most one row, made column by column of the record and the arrival time of the submission that takes it, in its commit |
| `ServerVerify.VerifyOperation` | packages/server/src/services/operation-verify.ts:14-209 | The four checks, the verdict and the complaints in their order, as functions of the stores that the next rows say the meaning of |
| `ServerSound.ValidExactly` | packages/server/src/services/operation-verify.ts:54-148 | A verdict is valid exactly when the object at the row's key is a record whose signature verifies under the key it names, the row's chain hash is that of its own columns and its predecessor's is the one it names, and the stored receipt hashes to the hash beside it |
| `ServerSound.ForgedRecordFails` | packages/server/src/services/operation-verify.ts:54-77 | Whatever record is put in its place, the verdict is invalid unless that one's own signature verifies |
| `ServerSound.MissingRecordFails` | packages/server/src/services/operation-verify.ts:36-52 | and if there is no record at all |
| `ServerSound.AlteredRowFails` | packages/server/src/services/operation-verify.ts:79-91 | A row changed in any column under its chain hash is invalid in every state of the stores, where the hash does not collide on the two texts |
| `ServerSound.BrokenLinkFails` | packages/server/src/services/operation-verify.ts:93-104 | and one whose predecessor in the table has another hash than it names |
| `ServerSound.ForgedReceiptFails` | packages/server/src/services/operation-verify.ts:116-140 | A receipt that does not hash to the hash beside it makes the verdict invalid |
| `ServerSound.AlteredReceiptFails` | packages/server/src/services/operation-verify.ts:116-140 | so does any change to a valid row's receipt that leaves its hash alone, where the receipt hash does not collide |
| `ServerSound.LostReceiptFails` | packages/server/src/services/operation-verify.ts:141-145 | and so does a missing one |
| `ServerSound.ComplaintsExactly` | packages/server/src/services/operation-verify.ts:20-209 | Each of the eleven complaints is made exactly when its own cause is there, and none is made exactly when the verdict is valid and no inclusion check false |
| `ServerSound.InclusionExactly` | packages/server/src/services/operation-verify.ts:150-194 | The inclusion check is true exactly when the stored siblings lead from the row's own chain hash to the root in the epochs' table |
| `ServerSound.InclusionSound` | packages/server/src/services/operation-verify.ts:150-194 | Whatever has been put at the epoch's key, a true check means that the row is one of the leaves whose root is in the table, if the stored tree is as deep as theirs and the pair hash does not collide |
| `ServerVerify.CheckInclusion` | packages/server/src/services/operation-verify.ts:150-194 | The inclusion check and when it is pending |
| `ServerVerify.RowAt` | packages/server/src/services/operation-verify.ts:93-104 | An agent's row with number n is the n-th link of its chain, on the hash of the one before |
| `ServerVerify.CommittedVerifies` | packages/server/src/services/operation-verify.ts:54-148 | After any run verification finds signature, chain and receipt valid for every committed operation, after key revocation, freezing and losing submissions alike, when no written record has an id that makes an evidence key a receipt key |
| `ServerVerify.WindowsDisjoint` | packages/server/src/scheduler.ts:38-41 | An instant lies in exactly one window of the fixed interval |
| `ServerVerify.TickClosesLastWindow` | packages/server/src/scheduler.ts:38-41 | A pass closes exactly the last window that has ended |
| `ServerVerify.EpochComplete` | packages/server/src/services/operation-verify.ts:150-194 | An operation committed before its window's epoch was built has a true inclusion check ever after once the epoch exists, and a pending one before; of written records only that they stay off the epochs' key prefix |
| `ServerVerify.EpochWindowsDisjoint` | packages/server/src/services/epoch-service.ts:87-95 | No two epochs of an organisation cover the same instant, in any reachable state, with no hypothesis |
| `Hook.AnswerAdvances` | packages/server/src/services/operation-submit.ts:95-100 | A rejection always names a head beyond the predecessor the record was built on, at the head read and at the lost race |
| `Hook.AcceptedAdvances` | sdks/node/src/plugins/hook-template.ts:380-383 | On acceptance the hash the hook computed is committed right after its predecessor |
| `Hook.HookRunOk` | sdks/node/src/plugins/hook-template.ts:357-391 | Any run of any number of hook processes beside the server keeps file, predecessors and moves on the server's chain |
| `Hook.PrefixHeadIsCommitted` | sdks/node/src/plugins/hook-template.ts:138-165 | A hash is on the chain exactly when it is genesis or some committed operation's |
| `Hook.FileIsCommitted` | sdks/node/src/plugins/hook-template.ts:234-240 | Whatever is lost or crashes, the chain-state file holds genesis or a hash the server has committed |
| `HookLock.RefinesHook` | sdks/node/src/plugins/hook-template.ts:185-240 | A run in which moves are system calls on the lock and no call inside it is reclaimed from (a fair run) is, call by call, a run in which each move is one step |
| `HookLock.FileIsCommitted` | sdks/node/src/plugins/hook-template.ts:185-240 | Between any two system calls of every run, with any deaths and any reclaiming, the file holds genesis or a hash the server has committed |
| `HookLock.MovesBackExactly` | sdks/node/src/plugins/hook-template.ts:234-240 | In any state that a run reaches, a step moves the file back along the server's chain exactly when it is a decision on a read of the call's own predecessor, with a target that the file is already past |
| `HookLock.FreshReadsMoveOn` | sdks/node/src/plugins/hook-template.ts:234-240 | Such a decision's read is stale: the file has changed since |
| `HookLock.OnlyStaleDecisionsMoveBack` | sdks/node/src/plugins/hook-template.ts:376-390 | Of two moments of any run, fair or not, without such a decision between them, the later finds the file at least as far along the server's chain |
| `HookLock.FileNeverMovesBack` | sdks/node/src/plugins/hook-template.ts:376-390 | so it does in fair runs, on acceptance and on resynchronisation |
| `HookRace.FileMovesBack` | sdks/node/src/plugins/hook-template.ts:200-240 | The failing run, from the first state: two operations are committed, a process dies holding the lock, two others reclaim it from one another, and the file names the second operation and then the first |
| `HookRace.CastExists` | sdks/node/src/plugins/hook-template.ts:370-391 | There are records, keys and hashes for that run |
| `HookLock.TimelyIsFair` | sdks/node/src/plugins/hook-template.ts:200-212 | Runs in which no lock file outlives five seconds are fair |
| `HookTries.ReadExactly` | sdks/node/src/plugins/hook-template.ts:138-165 | A process starts from the hash the file names, from genesis when there is none, and not at all from anything else |
| `HookTries.ReplyExactly` | sdks/node/src/plugins/hook-template.ts:378-386 | On acceptance it is to move the file to the hash of the record it sent, on a rejection to the head it is told, when that is 43 url symbols; any other answer ends it |
| `HookTries.MoveExactly` | sdks/node/src/plugins/hook-template.ts:234-240 | The file moves exactly when it still names the predecessor; an accepted process is done, a rejected one reads again as long as it has posted fewer than five times, in every reachable state |
| `HookTries.ProbeExactly` | sdks/node/src/plugins/hook-template.ts:167-183 | A call that finds the lock taken by a living process goes back to opening it |
| `HookTries.StatExactly` | sdks/node/src/plugins/hook-template.ts:205-216 | and so does one that finds it not older than five seconds |
| `HookTries.ReclaimerLooked` | sdks/node/src/plugins/hook-template.ts:199-216 | Only a call that has seen both comes to reclaim it |
| `HookTries.LeaverUnlocks` | sdks/node/src/plugins/hook-template.ts:219-230 | A call that leaves takes the lock file away when it is its own, leaves any other, and returns what it decided |
| `HookTries.LockTakenBy` | sdks/node/src/plugins/hook-template.ts:200-230 | Only a call that reclaims the lock file, or one that has found it to be its own, ever takes it away |
| `Hook.AtMostOneCommitted` | sdks/node/src/plugins/hook-template.ts:375-391 | In every run a hook process makes at most five posts, and none but the last is ever committed unless another submission delivered that very operation id past the head check |
| `Hook.SecondDeliveryIsRejected` | packages/server/src/services/operation-submit.ts:82-178 | What such a delivery does: of two deliveries of one record past the nonce, one is accepted and the other rejected with the record's own hash, so that a rejected post is committed |
| `HookSubmit.Hooked.AdvanceChainState` | sdks/node/src/plugins/hook-template.ts:234-240 | The file is replaced exactly when it can be read and names the expected hash |
| `HookSubmit.Hooked.SubmitOperation` | sdks/node/src/plugins/hook-template.ts:357-391 | The retry loop posts at most five times and five times when it ends on a rejection that names a head; undisturbed it needs one post from the server's head and two from any other readable state, and ends with the operation committed and named in the file |
| `HookSubmit.RejectedElsewhere` | sdks/node/src/plugins/hook-template.ts:384-389 | A rejected post tells the head and leaves the next one ready |
| `HookSubmit.AcceptedAtHead` | sdks/node/src/plugins/hook-template.ts:378-383 | A post that names the head is accepted and its row appended |
| `Lock.StepKeepsExclusive` | sdks/node/src/plugins/hook-template.ts:185-232 | A step keeps at most one call between creating and removing the lock exactly when it does not reclaim the lock from under one |
| `Lock.MutualExclusion` | sdks/node/src/plugins/hook-template.ts:185-232 | At most one call holds the lock, in every interleaving in which no lock is reclaimed from under a call that is inside (a fair run) |
| `Lock.OnlyOwnLockRemoved` | sdks/node/src/plugins/hook-template.ts:200-230 | In fair runs a lock file is only ever removed by the call that created it, or when nobody is inside |
| `Lock.Linearizable` | sdks/node/src/plugins/hook-template.ts:234-240 | The calls of a fair run behave as some sequential order of themselves, each with the answer it got, and the file is what that order leaves |
| `Lock.HistoryOnlyGrows` | sdks/node/src/plugins/hook-template.ts:234-240 | Decisions are ordered as they were made |
| `Lock.ReclaimLosesUpdate` | sdks/node/src/plugins/hook-template.ts:200-212 | From any state with a stale lock of a dead owner, two reclaiming calls are both told that they moved the file from the same hash: the hypothesis is needed |
| `Lock.DeathReachable` | sdks/node/src/plugins/hook-template.ts:167-183 | Such a state is reachable with any file and any hashes |
| `Json.StringReads` | packages/server/src/utils/crypto.ts:162-164 | A JSON reader recovers every UTF-16 string from its quoted form, unpaired surrogates included |
| `Json.NumberReads` | packages/server/src/utils/crypto.ts:158-160 | and every integer from its decimal form |
| `Json.ValueReads` | packages/server/src/utils/crypto.ts:153-184 | and every value from its text, before any text that cannot continue a number |
| `Json.PrintInjective` | packages/server/src/utils/crypto.ts:153-184 | Different values print differently |
| `JsonExact.QuotePlain` | packages/server/src/utils/crypto.ts:162-164 | A string without controls, quotes, backslashes and surrogates is written as it is between quotes |
| `JsonExact.EscapeExactly` | packages/server/src/utils/crypto.ts:162-164 | Every other unit alone: the seven escapes of two letters, and four lower-case hexadecimal digits for the other controls and for a lone surrogate |
| `JsonExact.EscapeConcat` | packages/server/src/utils/crypto.ts:162-164 | A string is written unit by unit, except where two parts meet in a surrogate pair |
| `JsonExact.EscapePair` | packages/server/src/utils/crypto.ts:162-164 | which is written as it is |
| `JsonExact.ScalarsExactly` | packages/server/src/utils/crypto.ts:153-164 | Literals, numbers and strings to the letter |
| `JsonExact.ArrayExactly` | packages/server/src/utils/crypto.ts:166-169 | An array to the letter: each further element after a comma, before the bracket |
| `JsonExact.ObjectExactly` | packages/server/src/utils/crypto.ts:171-181 | An object to the letter: each further key, colon and value after a comma, before the brace |
| `Text.DecimalExactly` | packages/server/src/utils/crypto.ts:158-160 | A number is written as the one numeral without leading zeros that denotes it, after a minus sign where it is negative |
| `Jcs.JcsCanonicalise` | packages/server/src/utils/crypto.ts:153-184 | The recursion with its sorted keys and pushed pairs computes the canonical text, numbers being the safe integers |
| `Jcs.NormOfSorted` | packages/server/src/utils/crypto.ts:173-179 | Skipping undefined members after sorting is sorting what is defined |
| `Jcs.CanonDecides` | packages/server/src/utils/crypto.ts:153-184 | Two values have the same canonical text exactly when they mean the same, key order aside |
| `Jcs.CanonReads` | packages/server/src/utils/crypto.ts:153-184 | A reader recovers the value's meaning from its canonical text |
| `Jcs.KeyOrderIrrelevant` | packages/server/src/utils/crypto.ts:173-180 | Permuting an object's keys leaves the text alone |
| `Jcs.RecordBinds` | packages/server/src/utils/crypto.ts:171-181 | Two records with the same keys have the same text exactly when every field means the same and the same ones are absent |
| `Jcs.SignedTextBinds` | packages/server/src/services/operation-eor.ts:12-29 | The text under an agent's signature binds all fourteen fields and tells an absent payload from null |
| `Jcs.ReceiptTextBinds` | packages/server/src/utils/crypto.ts:206-219 | The text under a receipt hash binds all nine fields |
| `CanonExact.MembersAscend` | packages/server/src/utils/crypto.ts:173-180 | The members of a canonical object are its defined ones in strictly ascending order of their keys' units |
| `CanonExact.SignedTextExactly` | packages/server/src/services/operation-eor.ts:12-29 | The signed text has the fourteen members under their names in this order, an absent payload left out |
| `CanonExact.ReceiptTextExactly` | packages/server/src/utils/crypto.ts:206-219 | and the text under a receipt's hash its nine |
| `HashedBytes.CanonEncodes` | packages/server/src/utils/crypto.ts:40-45 | Encoding a canonical text to UTF-8 loses nothing |
| `HashedBytes.BytesDecide` | packages/server/src/utils/crypto.ts:217-218 | The hashed bytes are equal exactly when the values mean the same |
| `HashedBytes.RawTextsCollide` | packages/server/src/utils/crypto.ts:40-45 | Raw texts would not do: an unpaired surrogate encodes as the replacement character does |
| `HashedBytes.LoneIsReplaced` | packages/server/src/utils/crypto.ts:40-45 | with its three bytes |
| `Encodings.Utf8KeepsOrder` | sdks/go/crypto.go:98 | UTF-8 byte order is code point order |
| `Encodings.Utf16Order` | packages/server/src/utils/crypto.ts:173 | UTF-16 unit order is code point order except across the boundary of the basic plane, where it is reversed |
| `Encodings.EncodingsInjective` | sdks/node/src/crypto.ts:38-42 | Different texts have different bytes and different units |
| `Encodings.Utf8Exactly` | packages/server/src/utils/crypto.ts:40-45 | Each scalar value's bytes have one of the four forms of UTF-8, and their bits are its number |
| `Encodings.Utf16Exactly` | packages/server/src/utils/crypto.ts:173 | and its units one of the two of UTF-16 |
| `Canonicalisers.AgreeSuffices` | sdks/python/elydora/crypto.py:55-60 | Two key orders that agree on every object's keys arrange the value alike |
| `Canonicalisers.AgreeNecessary` | sdks/python/elydora/crypto.py:55-60 | and only those do |
| `Canonicalisers.NodeOrdered` | sdks/node/src/crypto.ts:23-33 | JavaScript's form of a value is normalised by sorting its keys by UTF-16 units |
| `Canonicalisers.ShownInUtf16` | sdks/node/src/crypto.ts:14-33 | The minimal-escape text of a value over safe integers, in UTF-16, is what JSON.stringify gives for it |
| `Canonicalisers.ShownInjective` | sdks/python/elydora/crypto.py:37-62 | Different values show differently |
| `SdkTexts.PythonSortsByCodePoint` | sdks/python/elydora/crypto.py:37-62 | The recursion over sorted pairs prints the value with its keys by code point |
| `SdkTexts.JcsWriteString` | sdks/go/crypto.go:132-159 | The rune loop appends the quoted string's bytes to the builder |
| `SdkTexts.JcsWrite` | sdks/go/crypto.go:52-129 | The builder receives the bytes of the value with its keys sorted by bytes |
| `SdkTexts.JcsCanonicalise` | sdks/go/crypto.go:44-50 | The Go canonicaliser returns those bytes |
| `SdkTexts.PythonIsGo` | sdks/go/crypto.go:52-129 | Python and Go give the same bytes for every value over safe integers |
| `SdkTexts.NodeAgreesExactly` | sdks/node/src/crypto.ts:5-36 | On those values the server and the Node SDK agree with them exactly when no object has two keys that first differ across the end of the basic plane |
| `SdkTexts.AllAgreeInBmp` | packages/server/src/utils/crypto.ts:153-184 | In the basic plane all give the same bytes |
| `SdkTexts.AstralKeysDisagree` | packages/server/src/utils/crypto.ts:173 | A two-key object on which they part |
| `Pagination.CursorRoundTrip` | packages/server/src/utils/pagination.ts:14-40 | Decoding inverts encoding for every cursor, whatever the id contains, with a decoder that undoes the encoder on text without a byte order mark and a parser that reads payloads |
| `CanonExact.CursorText` | packages/server/src/utils/pagination.ts:14-18 | A cursor is the encoding of the JSON text with its two members, created_at and id |
| `CanonExact.CursorExactly` | packages/server/src/utils/pagination.ts:21-40 | and a text is a cursor exactly when it decodes to JSON with an integer under created_at and a string under id |
| `Pagination.StandardExists` | packages/server/src/utils/pagination.ts:21-40 | Such a decoder and such a parser exist |
| `Audit.QueryAudit` | packages/server/src/services/audit-service.ts:13-117 | The pushed conditions, the count without the cursor and the one-row look-ahead give the page of matching rows beyond the cursor, count and page each of the table its query sees |
| `Audit.WhereIs` | packages/server/src/services/audit-service.ts:24-91 | The built conditions select the matching rows, and with the cursor condition those strictly beyond it |
| `Audit.BuildFilters` | packages/server/src/services/audit-service.ts:24-57 | Which filters apply, which are ignored when empty, and which times are refused |
| `AuditExact.RefusedExactly` | packages/server/src/services/audit-service.ts:24-79 | Exactly which requests are refused, and for what: a negative start, a negative end, a cursor that does not decode |
| `AuditExact.MatchesExactly` | packages/server/src/services/audit-service.ts:24-57 | The rows asked for are those of the organisation, the agent and the type, where these are given and not empty, from the start to the end, both included |
| `AuditExact.PageExactly` | packages/server/src/services/audit-service.ts:85-117 | A page holds such rows only, none newer than its cursor, newest first by time and then by id, at most as many as the limit, which it has when another follows, with the number of such rows in the table that was counted |
| `AuditPages.PageHolds` | packages/server/src/services/audit-service.ts:85-110 | A page holds exactly the matching rows from where it starts to where the next one does |
| `AuditPages.WalkDescends` | packages/server/src/services/audit-service.ts:91 | Along the pages rows come in strictly descending order of time and id |
| `AuditPages.EveryRowOnce` | packages/server/src/services/audit-service.ts:59-110 | Following the cursors returns every matching row present from the first page on, and none twice, while operations keep arriving |
| `AuditPages.FixedTable` | packages/server/src/services/audit-service.ts:73-110 | On a fixed table the pages are the consecutive slices, max(1, ceil(N / limit)) of them, each reporting N |
| `AuditPages.WalkEnds` | packages/server/src/services/audit-service.ts:99-110 | Following the cursors of a fixed table comes to an end, with exactly those slices |
| `AuditPages.ServerTablesGrow` | packages/server/src/services/operation-submit.ts:180-220 | Whatever the server does between two pages gives such a growing table |
| `PdfPages.LabelReads` | packages/server/src/utils/pdf.ts:78-84 | A PDF reader recovers every label's printable text from its escaped form |
| `PdfPages.RenderMetadata` | packages/server/src/utils/pdf.ts:151-186 | The field loop draws the section and returns the y below it |
| `PdfPages.BuildPages` | packages/server/src/utils/pdf.ts:246-297 | The page loop puts on each page its own slice of the operations with header, table head, end note and footer |
| `PdfPages.OnExactlyOnePage` | packages/server/src/utils/pdf.ts:250-285 | Each operation is on exactly one page |
| `PdfPages.EveryOperationRendered` | packages/server/src/utils/pdf.ts:276-285 | Its row is drawn there, at its own baseline, at or above the content bottom |
| `PdfPages.ContentAboveBottom` | packages/server/src/utils/pdf.ts:264-294 | For every number of operations nothing between header and footer falls below the content bottom, the end note included |
| `PdfContent.EveryRowShown` | packages/server/src/utils/pdf.ts:189-222 | Each operation is shown on its page at its own height: number, time, operation id, agent and type under their headings, each whole when it fits and otherwise its beginning and two dots |
| `PdfContent.StripesExactly` | packages/server/src/utils/pdf.ts:204-213 | Exactly every other row lies on a stripe, beginning with the first |
| `PdfContent.DetailsShown` | packages/server/src/utils/pdf.ts:151-186 | The first page names each detail of the export beside its value |
| `PdfContent.HeaderShown` | packages/server/src/utils/pdf.ts:123-140 | Every page has the bar, the mark and the two lines at its head |
| `PdfContent.FooterShown` | packages/server/src/utils/pdf.ts:143-148 | and in its footer which page it is of how many, and of which export |
| `PdfContent.NoteShown` | packages/server/src/utils/pdf.ts:225-241 | The last page ends with the note where more than 70 points are left |
| `PdfReader.FillExactly` | packages/server/src/utils/pdf.ts:92-94 | A rectangle is filled in its colour, at its place and of its size |
| `PdfReader.LineExactly` | packages/server/src/utils/pdf.ts:97-99 | A line is stroked from its left to its right end, in its colour and width |
| `PdfReader.LabelExactly` | packages/server/src/utils/pdf.ts:102-104 | A label is set in its colour, font and size at its place, and a reader of the literal that follows finds its text |
| `PdfFile.AssemblePDF` | packages/server/src/utils/pdf.ts:303-366 | The object, offset and entry loops assemble the document from its objects |
| `PdfFile.BuildObjects` | packages/server/src/utils/pdf.ts:304-336 | Each page's stream and page object have consecutive numbers, the page names its stream, and the page tree names every page |
| `PdfReader.TreeExactly` | packages/server/src/utils/pdf.ts:306-338 | The catalog leads to the page tree, and that to each page's own object |
| `Text.JoinExactly` | packages/server/src/utils/pdf.ts:335-336 | Joined parts stand one after another with the separator between them |
| `PdfReader.PageExactly` | packages/server/src/utils/pdf.ts:309-333 | A page leads to its own stream and to the three fonts, which are what they are called |
| `PdfReader.ContentsExactly` | packages/server/src/utils/pdf.ts:322-323 | A stream's object gives its length and holds just that stream |
| `PdfReader.EndsExactly` | packages/server/src/utils/pdf.ts:339-364 | The file begins as PDF 1.4 and ends with the trailer that leads to the catalog and the table |
| `PdfReader.ObjectAt` | packages/server/src/utils/pdf.ts:342-350 | At its offset each object begins with its number and is closed after its content |
| `PdfReader.TableAt` | packages/server/src/utils/pdf.ts:351-355 | and the table begins with its head and the free entry |
| `PdfFile.EntryReads` | packages/server/src/utils/pdf.ts:356-358 | A cross-reference entry is twenty bytes and its digits are the offset, below ten billion |
| `PdfFile.CrossReferences` | packages/server/src/utils/pdf.ts:342-358 | Each entry stands at its place in the table and its offset is the position of the object with that number |
| `PdfFile.StartXref` | packages/server/src/utils/pdf.ts:351-363 | The number after startxref is the position of the table |
| `PdfFile.CrossReferenceBytes` | packages/server/src/utils/pdf.ts:365 | These are byte positions of the encoded file |
| `PdfReport.StreamAscii` | packages/server/src/utils/pdf.ts:78-104 | Every content stream is ASCII, whatever the operations say |
| `PdfReport.BuildBrandedPDF` | packages/server/src/utils/pdf.ts:246-366 | The whole report: pages, their streams as ASCII objects, and an ASCII file |
| `JsonTree.DeleteBelow` | sdks/node/src/plugins/droid-config.ts:167-182 | Deleting at a path is replacing the place above by its own value after the deletion |
| `JsonTree.SiblingsKept` | sdks/node/src/plugins/droid-config.ts:153-155 | Editing one member leaves its siblings alone |
| `ConfigEdit.ManagedRemovals` | sdks/node/src/plugins/droid-contract.ts:181-206 | The nested loops list per group the positions of the targeted handlers and whether the group is ours alone |
| `ConfigEdit.RemoveHandlers` | sdks/node/src/plugins/droid-config.ts:179-181 | Deleting the listed handlers from the last to the first filters the group's handlers |
| `ConfigEdit.RemoveGroups` | sdks/node/src/plugins/droid-config.ts:173-182 | Deleting groups and handlers from the last to the first filters the event's groups, emptied groups of the user's staying |
| `ConfigEdit.RemoveManagedEntries` | sdks/node/src/plugins/droid-config.ts:167-191 | The whole index edit is the filtered document, for two or three events and with or without removal of the emptied container |
| `ConfigEdit.UserHandlersKept` | sdks/node/src/plugins/droid-contract.ts:174-206 | Every user handler stays, in its order, and only ours go |
| `ConfigEdit.EditIsFilter` | sdks/node/src/plugins/gemini-config.ts:70-104 | On the whole document each event's groups are the filtered ones and other events are as they were |
| `ConfigEdit.NothingLeft` | sdks/node/src/plugins/droid-contract.ts:189-194 | No targeted handler is left; with no agent given nothing managed is |
| `ConfigEdit.EditIdempotent` | sdks/node/src/plugins/letta-config.ts:87-122 | Editing twice is editing once |
| `ConfigExact.HandlersExactly` | sdks/node/src/plugins/droid-contract.ts:174-206 | What is left of an event's handlers is, in order, those that nobody manages and, with an agent given, those of every other agent |
| `ConfigExact.GroupsExactly` | sdks/node/src/plugins/droid-contract.ts:181-206 | A group goes exactly when it has the generated shape and handlers and none of them stays; any other keeps its place and all its other members |
| `ConfigExact.EventExactly` | sdks/node/src/plugins/droid-config.ts:183-188 | An event without a handler to remove is as it was, and one that loses its last group is gone |
| `ConfigExact.ContainerExactly` | sdks/node/src/plugins/gemini-config.ts:98-102 | Where the plugin removes an emptied hooks object none is left, and otherwise nothing else is removed |
| `ConfigRender.RenderDocument` | sdks/node/src/plugins/droid-config.ts:214-232 | Removal and the appends in event order give the rendered document, or the removal of a file that the installer made and that is left empty |
| `ConfigRender.AppendedGroups` | sdks/node/src/plugins/droid-config.ts:193-205 | After the appends each event has its new group at the end and nothing else has moved |
| `ConfigRender.RemoveUndoesInstall` | sdks/node/src/plugins/gemini-config.ts:119-136 | Installing and then removing leaves each event the groups that removing alone leaves |
| `ConfigRender.PluginEvents` | sdks/node/src/plugins/droid-contract.ts:17 | The events of each plugin by name, all different, and where its hooks are |
| `ConfigExact.RemovedFileHeldNothing` | sdks/node/src/plugins/droid-config.ts:207-232 | A file that is removed held no setting, no other event's hook and no handler that was to stay |
| `ConfigOutside.CleanedOutside` | sdks/node/src/plugins/droid-config.ts:167-191 | Removal leaves every other setting and every other event's hooks as they are, in their order |
| `ConfigOutside.RenderedOutside` | sdks/node/src/plugins/droid-config.ts:193-232 | and so does installing |
| `Order.SortPermutes` | packages/server/src/utils/merkle.ts:59 | A sort keeps the multiset of its elements |
| `Order.SortStable` | packages/server/src/utils/merkle.ts:59 | and leaves elements with the same key in their order |
| `Order.LessExactly` | packages/server/src/utils/crypto.ts:173 | One sequence is before another exactly when it is smaller at the first place where they differ, or a proper beginning of it |
| `Order.SortedUnique` | packages/server/src/utils/crypto.ts:173 | A sorted arrangement is unique when the key determines the element |
| `Order.SortDownward` | sdks/node/src/plugins/droid-config.ts:170-179 | Sorting ascending positions from high to low reverses them |

## Left out

- deleteAgent: it removes an agent's rows and resets its history; the runs here are those without it.
- SHA-256, Ed25519, TextDecoder, JSON.parse, the shell-command parsers and the database's text collation are parameters; `Pagination.Standard` and `AuditPages.Sound` say what is asked of them.
- Server.Host: signature and public-key decoding errors during submission are folded into a failed submission; during verification they read as a failed signature.
- Server.Row: subject and action are kept as the strings that are stored, without their JSON form.
- Server.ValidateEor: lengths count characters, not UTF-16 units, and the payload size is a parameter.
- Server.StepRegister: per-key validation of algorithm and length; a registration that would fail is simply not taken.
- Server.Step: administrators' read-then-write is one step, and the epoch scheduler is one sequential pass at a time; an organisation may be checked in any order.
- Server.FreshEpochId: generated epoch ids are taken to be unused and slash-free.
- ServerVerify.VerifyOperation: reads all stores in one state; a stored tree whose layers do not halve is taken to be a pending inclusion check.
- ServerOverwrite.EvidenceMatchesRow: a record put over itself by a repeated submission is outside this statement; ServerOverwrite.FaithfulRunsExactly has the exact condition.
- Server.Extra: a body's members beside the record's are kept as those that verification and epochs can read, the nine receipt members, the receipt hash and a stored tree; a receipt member of another JSON type is given by the text it is hashed as.
- ServerVerify.EpochComplete: operations received in a window but committed after its epoch was built are outside the statement.
- The worker's latest-chain-hash cache, the queue, the time-stamping request and admin events: nothing proved here reads them.
- Hook: reading the configuration and the key file, the error log, and the HTTP status codes other than the predecessor mismatch; any of these ends the process, as a crash does.
- HookSubmit.Hooked.SubmitOperation: the time budget; an answer that does not come in time is one that is lost.
- Lock: writing the state file is one step, and removing a reclaimed lock file after its renaming is part of the renaming.
- Jcs.JcsCanonicalise: numbers are the integers up to 2^53 - 1 in magnitude, so fractions, exponents, NaN and functions are outside the value type.
- SdkTexts.NodeAgreesExactly: numbers beyond 2^53 - 1 and fractions are outside the value type; there JavaScript and Go's float64 path print rounded digits or an exponent where Python prints an int's own digits, and Python prints 5.0 where JavaScript prints 5, so nothing is claimed.
- SdkTexts.JcsWrite: Go strings are given by their runes, and the marshal-and-reparse fallback for other Go types is not modelled.
- Pagination.DecodeCursor: a cursor from elsewhere may hold any number; only safe integers are represented.
- AuditPages.EveryRowOnce: rows inserted ahead of the reader's position while it reads are not returned; the statement is about those there from the start.
- PdfPages: dates are given as the text they are shown as, and lengths and replaced characters count scalar values where the code counts UTF-16 units.
- ConfigRender.RenderDocument: whether the text of the file changed; the model has its tree.
- ConfigEdit: an edit of the JSON text is an edit of its tree; comments, formatting and the schema checks of the plugins are not modelled, and which handlers are managed is a parameter.
- Routes, middleware, authentication, roles, translations, exports, the console and the remaining plugins: plumbing with one-branch facts.
