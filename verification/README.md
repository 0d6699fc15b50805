# Allegro: a verified model of the glue between consensus and execution

Allegro joins a Simplex BFT consensus engine to the reth execution engine. Both are libraries; what
the repository owns is the state machine between them, the timestamp rule, a hand-written RLP codec
and the derivation of the validator set. This project models those four parts and proves what they
promise, for every input, every run and every interleaving.

`dafny verify dfyconfig.toml` checks the whole project.

## Layout

| file | content |
|---|---|
| `Basics`, `Buffers`, `Ancestry` | bytes, hashes, 64-bit arithmetic; byte buffers; parent pointers and subsequences |
| `Engine` | the execution engine as a block tree with `fork_choice_updated` and `new_payload`, both with Allegro's relaxed timestamp checks |
| `Glue` | one validator: its stores, and every step of the actor, relay, receiver, reporter and finalizer as a function on the node's state |
| `System` | N validators, the frames in flight, what consensus guarantees, runs and reachable states |
| `Runs` | reachable states are closed under runs, and no run takes anything back |
| `Agreement` | the invariant of all reachable states, kept by every step |
| `Lineage` | agreement between nodes, one ancestry, import before record, the closed form of time |
| `Finality` | the finality pointer and the forkchoice state of a build |
| `Reports` | what becomes of every reported finalization |
| `Proposals` | what a request asks for, what a proposal on an unknown parent cannot do, and when an uninterrupted one is answered |
| `Builds` | what becomes of a build under every interleaving |
| `Votes` | what becomes of a vote under every interleaving, from the frame to the verdict |
| `Conservation`, `Counters` | counters and answers against what went in and out |
| `Race`, `RaceExample` | a run in which a build forkchoice names no chain |
| `Replica` | the running node as a class: the loops and field updates of the source, each stated field by field and proved to be an uninterrupted run of the steps in `Glue` |
| `Handling` | those runs are runs of the system |
| `Timestamps` | the timestamp recurrence and its two closed forms |
| `Rlp`, `AllegroHeader` | RLP (Ethereum Yellow Paper, Appendix B) and the header codec |
| `Wire` | the block frame of relay, receiver and `Block` codec |
| `Validators` | the validator set and its two routes |

## How the protocol is modelled

A node is its three maps (`block_info`, `pending_blocks`, `received_blocks`), its log of proposals,
its engine's tree, its counters, the tracker, the bounded finalization channel, and where its actor
and its finalizer stand. A step is what one task does without giving another a chance to run: one
look at a store, one update, one engine call. `System.Next` lets any node take any step at any time;
a step of a task that stands elsewhere changes nothing. A state is reachable if some run of such
steps leads to it from initial nodes, for any number of nodes, validator sets and channel sizes.
Frames stay in the set of sent frames for ever and may be delivered never, once or many times in any
order, which covers loss, duplication and reordering.

What the environment decides arrives as a parameter of a step: the proposer's clock, the block the
engine resolves a payload id to, and the engine's mood (ready, lagging or unreachable for a
forkchoice update; immediate, deferred or broken for a payload). `Log` and `World` record what has
happened (reports, proposals handed out and answered, votes asked and cast; blocks built, their
consensus parents, the clocks read). No decision of a node depends on them.

Hypotheses, all in `System.Enabled` and `Engine.Spec.Valid`:

- **Engine.** The contract of the Engine API, Paris specification (`engine_newPayloadV1`,
  `engine_forkchoiceUpdatedV1`), with Allegro's `>=` for timestamps: a resolved block is executable,
  its parent is the forkchoice head, its number is the parent's plus one, its timestamp is the
  requested one. A forkchoice state whose safe or finalized hash is not at or above its head is
  refused.
- **Hashes.** No two blocks built in one run share a hash, and none hashes to zero. Nothing is
  assumed about blocks outside the run.
- **Consensus ancestry** is the one of honest builds (`World.lineage`): the parent a digest was
  proposed on. A vote also names a parent, which plays no part in the code
  (`Votes.ClaimedParentIsIgnored`); it is the block's parent exactly if consensus names the one the
  proposer was given (`Votes.AcceptedClaim`).
- **Framing.** A receiver is only handed frames that some node's relay sent.
- **Consensus**, a parameter of every statement: `Anything`; `OneChain` (each finalization reported
  to a node extends those before it; repeats allowed); `FromTheChain` (moreover a proposal's parent
  extends, when handed out, those reported to its node so far); `OnTheChain` (and those reported
  until its build reads the tracker).

## Where the code and its documents disagree

The model follows the code.

- `docs/design.md:531-537` and `README.md:108` give a rule in seconds, `max(now, parent + 1)`. The
  code (`crates/consensus/src/application.rs:327-335`) takes the maximum in milliseconds and floors
  it, so consecutive blocks may share a second.
- `crates/primitives/src/header.rs:152-153` says the milliseconds always exceed the parent's. With
  the production builder, which records seconds times 1000, they only never fall, and they rise
  exactly when the clock has entered a later second (`Timestamps.RecordedMillisRise`). The strict
  claim holds for a builder that keeps the requested milliseconds, exactly below the largest u64
  (`Timestamps.MillisStrictlyIncrease`).
- `ProposerKey::length` returns 32 where `encode` writes 33 bytes
  (`crates/primitives/src/header.rs:26-32`). The context encoder does not use it, so the length
  theorems stand (`AllegroHeader.ProposerKeyLengthIsShort`).
- That a proposal is handed out on a parent extending every finalization so far does not make its
  forkchoice state well formed: a finalization may arrive before the build closure reads the tracker.
  `RaceExample.HandoutIsNotEnough` is such a run, on concrete blocks. It refutes the stated
  hypothesis `FromTheChain`; it does not claim to be a schedule of the Simplex library, whose view
  rules leave room for it only if a digest is proposed again in a later view.
  `Finality.ReadingIsExact` gives the exact condition, which a caller can check where the tracker is
  read.

## Model

| member | source | states |
|---|---|---|
| Agreement.ReachableOk | crates/consensus/src/application.rs:290-527 | In every reachable state of N nodes, under loss, duplication and reordering: bytes in any store or frame encode the block with that digest, every record describes a block in its node's own tree, and every build with a payload id or beyond has a recorded parent |
| Agreement.NextOk | crates/consensus/src/application.rs:278-288 | Any step of any node, with any interleaving of its tasks, keeps that invariant at every node, and never changes what was built before |
| Agreement.WorldGrows | crates/consensus/src/application.rs:338-373 | A new block takes its place one below its consensus parent without disturbing any block; if its digest was built before, it was on the same parent |
| Agreement.BuildGrows | crates/node/src/builder.rs:106-116 | A block the engine resolves for a granted request is on the consensus parent of its proposal, with the requested time |
| Agreement.ImportKeepsTree | crates/node/src/builder.rs:114-129 | After an import every block of the tree still has its parent there, none was replaced, and an accepted block is in it |
| Agreement.ValidateReports | crates/consensus/src/application.rs:455-525 | Whatever the bytes are and hash to, validation changes the tree only by importing what they decode to, goes on exactly if the engine says valid and milliseconds agree with seconds, with that block's own hash and times, and otherwise votes no |
| Lineage.StoredBlocksAgree | crates/consensus/src/application.rs:427-441 | Across any two nodes, pending and received bytes under one digest are equal, every frame in flight agrees with them, and all decode to the block whose hash is the digest |
| Lineage.RecordsAgree | crates/consensus/src/application.rs:373-394 | Any two nodes' records of a digest, made by propose or by verify, agree on number, hash, seconds and milliseconds; the hash is the digest itself, or genesis for EMPTY, whose record never changes |
| Lineage.RecordsPersist | crates/consensus/src/application.rs:488-505 | No step forgets a record, and an overwrite keeps those four fields |
| Lineage.OneAncestry | crates/consensus/src/application.rs:308-313 | In every reachable state a digest descends from another in consensus if and only if its block descends from the other's block in execution |
| Lineage.NumbersAreDepths | crates/consensus/src/application.rs:240-255 | A block's number counts the consensus steps down to EMPTY, which is reached at exactly that depth and no earlier |
| Lineage.AnswersFollowConsensus | crates/consensus/src/application.rs:338-413 | Every digest a propose was ever answered with is a block whose parent hash is genesis for EMPTY and the parent digest otherwise, at its recorded depth; EMPTY is never an answer |
| Lineage.ImportedBeforeRecorded | crates/node/src/builder.rs:114-129 | Every recorded digest names a block in the node's own tree with all ancestors back to genesis, so a ready engine answers the finalizer's forkchoice update for it with a valid status |
| Finality.OnlyMissesAreSkipped | crates/node/src/finalizer.rs:36-71 | In every reachable state, whatever task steps, a digest the finalizer holds stays held or its turn ends: by a missing record or an engine out of reach, and then the tracker stands, or by the tracker moving to its block; the engine has every block found, so an update succeeds if and only if it is answered |
| Finality.ReportIsExact | crates/consensus/src/engine.rs:203-218 | A reported digest joins the end of the trail if and only if the channel has room; it is counted either way and nothing else changes |
| Finality.TrailIsExact | crates/node/src/finalizer.rs:33-78 | What any step does to the digests under way, dropped and skipped: reports join or are dropped at a full channel, a failed turn skips the digest held, and nothing else is lost or reordered |
| Reports.ReportsAreAccounted | crates/consensus/src/engine.rs:203-218 | In every reachable state each report was applied, is held, waits in the channel, was dropped or was skipped, exactly as often as it was made |
| Reports.RoomyRunDropsNothing | crates/consensus/src/engine.rs:203-213 | Over every run in which each report finds room, nothing is dropped |
| Reports.FailedUpdatesNeverMove | crates/node/src/finalizer.rs:59-71 | Over every run in which no update gets through to the engine, the tracker and its history stand, unless one had got through before |
| Finality.RecordedIsApplied | crates/node/src/finalizer.rs:33-78 | Over every run and interleaving in which the engine answers, a digest recorded when the finalizer took it is still held or is the next one the tracker moved to |
| Lineage.TimeIsLargestClock | crates/consensus/src/application.rs:327-335 | A built block's seconds are the maximum of the genesis seconds and the floored proposer clocks on its path: attained, and never exceeded; nothing saturates |
| Lineage.RecordedTimeIsLargestClock | crates/node/src/builder.rs:141-143 | The same of every record of every node in every reachable state, with milliseconds exactly a thousand times the seconds |
| Finality.PointersAreReports | crates/consensus/src/engine.rs:203-218 | Whatever consensus does, the digests the tracker was moved to are a subsequence of those reported, despite drops on a full channel, misses and failures; the tracker holds the last one's hash and number |
| Finality.PointersAscend | crates/node/src/finalizer.rs:33-78 | With reports along one chain, every digest the tracker was ever moved to is an ancestor of every later one |
| Finality.FinalityNeverGoesBack | crates/node/src/builder.rs:26-44 | With reports along one chain, every step under every interleaving leaves the tracker where it is or moves it to a descendant in the execution chain, with a number at least as large |
| Finality.WalkFindsAncestors | crates/node/src/builder.rs:75-79 | In a node's tree, walking down from a block finds exactly its consensus ancestors |
| Finality.ReadingIsExact | crates/node/src/builder.rs:71-79 | In every reachable state, for a recorded parent, the forkchoice state of a build names a chain if and only if the parent extends the digest the tracker stands at when it is read, whatever consensus does |
| Finality.BuildForkchoiceIsWellFormed | crates/node/src/builder.rs:87-104 | When parents extend the finalizations up to the reading of the tracker, every forkchoice state a build asks with has its safe and finalized hash at or above its head, for every interleaving with the finalizer |
| Race.LateFinalizationBreaksBuild | crates/node/src/builder.rs:73-104 | Wherever two different blocks can be built on genesis, a run exists with proposals handed out on the finalized chain whose build asks with a forkchoice state that names no chain and is refused |
| RaceExample.HandoutIsNotEnough | crates/node/src/builder.rs:73-104 | That run on a concrete network and two concrete blocks |
| Proposals.UnknownParentNeverBuilt | crates/consensus/src/application.rs:308-371 | In every reachable state a build on an unrecorded parent asks with the zero hash and is still asking; no step gets it a payload id, an answer, a record or a stored block |
| Proposals.RequestIsExact | crates/consensus/src/application.rs:308-348 | A request carries the message's epoch, views, parent and leader, the recorded parent's hash and number or zero, and milliseconds that are the clock or one past the parent's, whichever is later, with the seconds they contain |
| Proposals.RequestsAreExact | crates/consensus/src/application.rs:338-349 | In every reachable state the request of a build is that of the proposal last handed out, on the records as they are |
| Proposals.RequestFollowsHead | crates/consensus/src/executor.rs:223-233 | A request on a recorded parent carries the hash and number of the parent's block, and passes the relaxed attribute check if and only if the head's seconds fit in milliseconds, which every built block's do |
| Proposals.ReadyEngineGrants | crates/node/src/allegro_consensus.rs:194-203 | Under consensus that keeps proposals on the chain, a ready engine grants every build on a recorded parent but one on a genesis whose time does not fit |
| Builds.AskIsExact | crates/node/src/builder.rs:87-104 | In every reachable state, whatever happened since the tracker was read, each attempt of a build on a recorded parent is granted if and only if the engine is ready, the parent extends the digest read and its time fits; the fifth that is not fails it |
| Builds.FavouredBuildIsAnswered | crates/consensus/src/application.rs:349-413 | Over every run and interleaving in which the engine does its part, such a build that read the tracker at an ancestor is under way or answered; it does not fail |
| Builds.UnfavouredBuildIsRefused | crates/node/src/builder.rs:87-104 | Over every run and interleaving, whatever the engine does, a build that read it elsewhere is still asking or over, and its proposal is never answered |
| Builds.ProposalOnTheChainIsAnswered | crates/consensus/src/application.rs:290-413 | With proposals kept on the finalized chain and an engine that does its part, no proposal on a recorded parent whose time fits ever fails, under every interleaving |
| Proposals.GrantedExactly | crates/node/src/builder.rs:87-104 | The five attempts made without another task in between get a payload id if and only if the parent extends the tracker's digest, its time fits and the engine is ready once; otherwise exactly one failure is counted |
| Proposals.ProposalIsAnsweredExactly | crates/consensus/src/application.rs:290-413 | An uninterrupted proposal is answered, imported, recorded (with the view and leader of the request) and stored if and only if its parent is recorded and extends the pointer, its time fits, and the engine is ready once, resolves and imports; otherwise no store changes |
| Proposals.BuiltBlockValidates | crates/node/src/allegro_consensus.rs:77-83 | A block any node built passes the header, timestamp and millisecond checks of every node that has its parent, and is syncing anywhere else; only the engine's mood decides what more it answers |
| Votes.ValidationIsExact | crates/consensus/src/application.rs:455-527 | In every reachable state, for every mood of the engine, validation goes on to recording exactly the block's own data if and only if the engine answers at once and holds the parent; otherwise it votes no |
| Votes.StandingStep | crates/consensus/src/application.rs:415-527 | Whatever task steps, a vote whose bytes are at hand stays under way, is cast for its block with exactly its record, or is cast against it with the parent missing or the engine not answering at once |
| Votes.VoteGoesByParent | crates/consensus/src/application.rs:415-527 | Over every run and interleaving, a vote once under way is still so, or was cast for the block only if the engine holds the consensus parent's block by then, and surely if it did at the start and answers at once |
| Votes.HonestProposalIsAccepted | crates/consensus/src/application.rs:415-527 | The same from any answered digest whose block reached another node at any earlier time, at every idle node that knows the proposer, against the parent the proposer was given |
| Votes.BroadcastIsSent | crates/consensus/src/engine.rs:82-115 | Broadcasting a digest puts the 32 bytes of it and the stored block into the network if and only if the node has stored it, and nothing else |
| Votes.BroadcastCanBeReceived | crates/consensus/src/engine.rs:82-161 | What was broadcast can be received by any node after any run |
| Votes.ReceiveIsExact | crates/consensus/src/engine.rs:144-172 | A message of at least 32 bytes is stored under the digest in front and counted, replacing what was there; a shorter one changes nothing |
| Votes.FrameStaysFound | crates/consensus/src/engine.rs:82-172 | From any stored block, broadcast, received by any node after any run: its encoding is then with the receiver through every later run |
| Votes.StandingVoteEnds | crates/consensus/src/application.rs:427-527 | The actor's own steps end every vote under way, with the verdict its parent and the engine's mood decide |
| Votes.ClaimedParentIsIgnored | crates/consensus/src/application.rs:453-463 | Stores, counters and verdict are the same whatever parent a vote claims |
| Votes.AcceptedClaim | crates/consensus/src/application.rs:453-463 | In every reachable state an accepted vote names its block's parent if and only if it names the one the block was proposed on, unless it names genesis by its hash instead of EMPTY |
| Runs.RunKeeps | crates/consensus/src/application.rs:62-78 | No run takes back a block, a record, a verdict, an answer or a move of the tracker, at any node |
| Conservation.ReachableBalanced | crates/consensus/src/application.rs:290-527 | In every reachable state, blocks proposed counts the proposals handed out, which are those logged plus those failed plus the one under way; each logged one answers a proposal of its own, on the parent that one named; every vote asked for but the last, if under way, has its own verdict, in order and for its own digest, counted once; every vote accepted, or looked at, names a validator as proposer |
| Conservation.OnlyValidatorsAreAccepted | crates/consensus/src/application.rs:416-425 | In every reachable state, a vote that was accepted was asked with a known proposer |
| Conservation.UnknownProposerIsRefused | crates/consensus/src/application.rs:416-425 | A vote is taken up if and only if its proposer is known; otherwise it is answered no and counted as failed, and no store changes |
| Counters.CountersAreExact | crates/consensus/src/application.rs:357-360 | Over every run a node counts one received block for each message that holds a digest, and one error for each failed build and each validation that ends in an error, and no more |
| Conservation.NothingIsLost | crates/consensus/src/application.rs:488-510 | Every vote cast for a block has its record, and every logged proposal is still stored for the relay and recorded |
| Conservation.VoteStep | crates/consensus/src/application.rs:415-527 | A step casts at most one vote, for the digest of the verification under way, ends it with that, and counts it once on the right side; any other step leaves it under way; only a validator's is taken up |
| Glue.AskAllOutcome | crates/node/src/builder.rs:87-104 | The retry loop stops at the first payload id, keeps the forkchoice state it started with, and fails exactly after five refusals |
| Glue.AskAllRefused | crates/node/src/builder.rs:87-104 | A forkchoice state that is unknown, malformed or early is refused every time and fails the build once |
| Replica.RunningNode.constructor | crates/consensus/src/application.rs:226-275 | A new node records genesis under EMPTY, at number and view zero with its time expanded, and nothing else, with the tracker at genesis |
| Replica.ForkchoiceTracker.SetFinalized | crates/node/src/builder.rs:40-43 | Overwrites the hash and the number together |
| Replica.RunningNode.RequestPayload | crates/node/src/builder.rs:71-104 | The retry loop gets a payload id if and only if the engine is ready once, the parent is known, the tracker's block lies below it and the time is not before it |
| Replica.RunningNode.BuildPayload | crates/node/src/builder.rs:66-145 | The build closure returns a payload if and only if that, the resolution and the import succeed: the block's bytes, hash, number and re-expanded milliseconds, with the block imported; otherwise it leaves the engine as it was. It takes the node exactly where the steps take it |
| Replica.RunningNode.ValidateBlock | crates/node/src/builder.rs:149-194 | The validate closure: exactly when it finds a block valid, invalid or in error, what it reports of a valid one, and the tree afterwards |
| Replica.RunningNode.HandlePropose | crates/consensus/src/application.rs:290-413 | Exactly when a proposal is answered, with the record, the stored bytes, the log and the counters it leaves; and that one without an answer changes no store. Every field is that of the uninterrupted run |
| Replica.RunningNode.HandleVerify | crates/consensus/src/application.rs:415-527 | Accepts if and only if the proposer is known, the bytes are found and the engine finds their block valid with a time that fits; then with exactly its record; an unknown proposer or missing bytes touch nothing but the counter. Every field is that of the uninterrupted run |
| Replica.RunningNode.Run | crates/consensus/src/application.rs:278-288 | The event loop handles any mailbox of messages one after the other, each as its uninterrupted run, counting each proposal and each vote once |
| Handling.InboxIsHandled | crates/consensus/src/application.rs:278-288 | Over any mailbox the actor is handed exactly its proposals and asked exactly its votes, in order, answers each vote, and is idle again |
| Handling.MessageInSystem | crates/consensus/src/application.rs:278-288 | Handling a message takes an idle node of any reachable state to a reachable state, so what holds of reachable states holds of the running node |
| Handling.DrainInSystem | crates/node/src/finalizer.rs:31-79 | The same of draining the finalization channel |
| Handling.ReceiptInSystem | crates/consensus/src/engine.rs:143-185 | The same of receiving frames that were sent |
| Replica.RunningNode.Broadcast | crates/consensus/src/engine.rs:82-97 | The buffer is filled if and only if the digest is stored, with the digest and its bytes, and parses back to them |
| Replica.RunningNode.ReceiveBlocks | crates/consensus/src/engine.rs:143-185 | After the messages the store holds, under each digest, what the last message for it carried or what was there; each message that holds a digest is counted, and the rest are skipped |
| Replica.RunningNode.ReportFinalization | crates/consensus/src/engine.rs:203-218 | A finalization is appended to the channel unless it is full, and counted either way |
| Replica.RunningNode.ApplyFinalization | crates/node/src/finalizer.rs:36-71 | One digest's turn moves the tracker to its block if and only if it is recorded, the engine has it and answers; otherwise the tracker stands |
| Replica.RunningNode.DrainFinalizations | crates/node/src/finalizer.rs:31-79 | The loop empties the channel in order and leaves the tracker at the block of the last digest that moves it, or where it was if none does |
| Engine.ExecutionEngine.ForkChoiceUpdated | crates/node/src/allegro_consensus.rs:194-203 | A payload id if and only if the engine is ready, the head is known, safe and finalized lie below it, and the attributes are given and not before it; a valid status if and only if the engine answers and those hold as far as attributes are given |
| Engine.ExecutionEngine.NewPayload | crates/node/src/allegro_consensus.rs:72-83 | Taken in if and only if the engine answers, the parent is known, the number is the next, the timestamp is not before the parent's and the block executes; that is then the only change, and there is none otherwise |
| Timestamps.NextSecondsIsMax | crates/consensus/src/application.rs:327-335 | Flooring and re-expanding turns the rule into a plain maximum of seconds, if and only if the parent's seconds fit in milliseconds |
| Timestamps.RecordedMillisRise | crates/node/src/builder.rs:141-143 | Recorded milliseconds never fall, and rise if and only if the clock has entered a later second |
| Timestamps.SecondsClosedForm | crates/consensus/src/application.rs:327-390 | After any list of clocks, the seconds are the maximum of genesis and the floored clocks |
| Timestamps.MillisClosedForm | crates/consensus/tests/common/mod.rs:43-98 | With a builder that keeps the request, the milliseconds after k blocks are the maximum of genesis + k and now_j + (k - j), if and only if that maximum fits in a u64 |
| Timestamps.MillisStrictlyIncrease | crates/primitives/src/header.rs:152-154 | One more proposal strictly increases them if and only if that maximum is below the largest u64 |
| Timestamps.StampsAgree | crates/consensus/src/application.rs:472-487 | With such a builder seconds and milliseconds agree on every built block, and on genesis if and only if its milliseconds fit |
| Timestamps.StampedSecondsNeverFall | crates/node/src/allegro_consensus.rs:77-83 | Its seconds pass the relaxed check against the parent, with the same exception for genesis |
| Rlp.BigEndianRoundTrip | crates/primitives/src/header.rs:86-104 | The stripped big-endian form has no leading zero and gives back the integer |
| Rlp.BigEndianLength | crates/primitives/src/header.rs:87-104 | It takes at most k bytes if and only if the integer is below 256 to the k |
| Rlp.HeaderRoundTrip | crates/primitives/src/header.rs:98-128 | An item header, short or long, is read back from the front of any buffer that holds its payload |
| Rlp.U64RoundTrip | crates/primitives/src/header.rs:86-143 | Every u64 is read back, leaving exactly the bytes that followed |
| Rlp.BytesRoundTrip | crates/primitives/src/header.rs:26-40 | Every byte string is read back, leaving exactly the bytes that followed |
| Rlp.HeaderIsCanonical | crates/primitives/src/header.rs:128 | Only the shortest header of a payload is accepted, and only with the payload there |
| Rlp.BytesAcceptedExactly | crates/primitives/src/header.rs:35-40 | A byte string is accepted if and only if the buffer starts with its one encoding |
| Rlp.U64AcceptedExactly | crates/primitives/src/header.rs:132-134 | And so is an integer |
| AllegroHeader.ContextLengthIsExact | crates/primitives/src/header.rs:106-123 | The hand-written length equals the bytes written for every context, with a header of one or two bytes; the last two branches are unreachable |
| AllegroHeader.BothHeaderSizesOccur | crates/primitives/src/header.rs:112-123 | The payload reaches both 36 and 60 bytes, so both header sizes occur |
| AllegroHeader.ProposerKeyLengthIsShort | crates/primitives/src/header.rs:26-33 | A proposer key reports one byte less than it writes |
| AllegroHeader.ContextRoundTrip | crates/primitives/src/header.rs:86-143 | Every context is read back, leaving exactly the bytes that followed |
| AllegroHeader.ContextDecodingIgnoresLength | crates/primitives/src/header.rs:126-143 | Whatever list length is claimed, the fields alone decide the result and where the cursor stops; the bytes are canonical if and only if the claim is true |
| AllegroHeader.ContextAcceptedExactly | crates/primitives/src/header.rs:126-143 | Decoding gives a context if and only if the buffer is a list header, of any length that is there, followed by that context's fields each in its one encoding; everything else is rejected |
| AllegroHeader.ContextIsSerialized | crates/primitives/src/header.rs:86-104 | The encoding is RLP, as Appendix B defines it, of the list of epoch, view, parent view and proposer |
| AllegroHeader.HeaderIsSerialized | crates/primitives/src/header.rs:146-158 | And the header's is that of the list of the inner header, the milliseconds and the context if there is one |
| AllegroHeader.AnnouncedLengthDecides | crates/primitives/src/header.rs:146-158 | The announced length decides what is read of a header with a context: all of it, the header without it, or a mismatch |
| AllegroHeader.WriteContext | crates/primitives/src/header.rs:86-104 | Writing through a temporary payload buffer appends exactly the encoding |
| AllegroHeader.ReadContext | crates/primitives/src/header.rs:126-143 | Reading advances the cursor past exactly the context, or fails with the first field's error |
| AllegroHeader.ReportedLengthIsExact | crates/primitives/src/header.rs:146-158 | The list length the derived encoder announces, which trusts the hand-written one, is the length of what follows |
| AllegroHeader.AllegroHeaderRoundTrip | crates/primitives/src/header.rs:146-158 | Every header, with or without context, is read back, leaving exactly the bytes that followed |
| AllegroHeader.EncodingsArePrefixFree | crates/primitives/src/header.rs:266-270 | No encoding is a prefix of another header's, even one that differs only in having a context; so distinct headers have distinct hash preimages |
| Wire.FramesAreOneFormat | crates/consensus/src/engine.rs:94-156 | A message parses to a digest and block if and only if it is their frame; it parses at all if and only if it has 32 bytes |
| Wire.Write | crates/consensus/src/block.rs:100-105 | The block codec writes that frame, and as many bytes as `encode_size` says |
| Wire.Read | crates/consensus/src/block.rs:78-98 | Every input of at least 32 bytes is read whole and re-encodes to itself; a shorter one is refused untouched |
| Validators.FromEntries | crates/consensus/src/validators.rs:35-48 | The set has exactly the listed keys, each with the ingress socket of its last entry and that entry's egress host on any port |
| Validators.HoldsDetermines | crates/consensus/src/validators.rs:35-48 | The entries determine the set |
| Validators.Keys | crates/consensus/src/validators.rs:51-53 | Every key of the set, and each once |
| Validators.DerivationIsSafeExactly | bin/allegro/src/main.rs:283-293 | The u8 count and the indexing are free of panics if and only if the stated bounds hold; the count is right if and only if there are at most 254 peers |
| Validators.EveryNodeDerivesTheList | bin/allegro/src/main.rs:283-301 | Every node of up to 255, splicing its own address into its peers, rebuilds the common list |
| Validators.BuildValidatorSet | bin/allegro/src/main.rs:277-307 | Genesis validators win unless there are none; then the set holds the derived entries |
| Validators.GenerateValidators | xtask/src/main.rs:107-118 | The file lists every socket with its index, the hex key of that index, and the socket twice; or the first error |
| Validators.CountedSockets | xtask/src/main.rs:81-92 | A count is accepted if and only if its last port is a port, and then gives consecutive local ports; otherwise the port overflow is reported |
| Validators.ListedSockets | xtask/src/main.rs:93-106 | A list is accepted if and only if every text parses and there are at most 65535; each is printed anew from what it parses to |
| Validators.ListedTexts | xtask/src/main.rs:93-103 | Otherwise the error names the first text that does not parse |
| Validators.LoadValidators | crates/node/src/chainspec.rs:71-113 | Loading holds every key of the file with the ingress socket and the egress host of its last entry, or fails with the error of the first malformed field of the first malformed entry; no list gives no validators |
| Validators.FileRoundTrip | crates/node/src/chainspec.rs:74-108 | A file written from keys and from separate ingress and egress sockets loads back, entry by entry, to those keys, ingress sockets and egress hosts |
| Validators.GenesisRoundTrip | crates/node/src/chainspec.rs:71-113 | A generated file loads, entry by entry, back to the sockets and keys it was generated from |
| Validators.BothRoutesAgree | bin/allegro/src/main.rs:283-301 | For up to 255 sockets, loading the generated file and deriving at any node give one and the same key-to-address map, which is the expected one |

## Left out

- The Simplex engine, its elector, signatures and certificates; its guarantees are the `Consensus`
  hypothesis.
- reth's EVM, database, transaction pool, payload jobs, gas, base-fee and blob checks; they are the
  engine's moods and the uninterpreted `executes`.
- The engine's own finalized marker: nothing is claimed of it. A build sends the tracker's value as
  read before its retry loop, which the finalizer may have passed since.
- Senders that frame content under a digest it does not have. `handle_verify` does not compare the
  hash it records with the payload, so the record invariants rest on the framing hypothesis.
- Poisoned locks, channels closed by the other side, receive errors, and shutdown.
- Waiting: the pauses of the retry loop and the time messages spend in the mailbox. A proposal counts
  as handed out when the actor takes it up.
- Broadcast counters, recipients and rate limits of the relay; a broadcast is a frame in the set of
  sent ones. `loopback.rs` is not part of this model.
- Counters other than proposed, verified, finalized, received, failed validations and errors.
- Block numbers are unbounded: a chain of 2^64 blocks is not modelled.
- A blob of bytes stands for the part of a block the glue does not read.
- keccak256 and key decoding: the header codec gives distinct preimages, and keys are raw bytes.
  `proposer_commonware` is not modelled.
- The derived decoder is modelled for headers as encoded: its handling of a second trailing field has
  no counterpart, as there is only one.
- `ConsensusConfig::validate`, `NetworkConfig`, command-line parsing, JSON and file access, splitting
  and trimming the socket list, mnemonic accounts, fork schedule, process launch.
- The u8 count of `build_validator_set` overflows by a panic here, as with overflow checks on; a build
  without them wraps to zero validators.
- `Replica`'s methods run one task at a time to the end of a message, as one run among those of
  `System` (`Handling`); the other interleavings are proved on the node as a value.
