/** The running node, with the fields and loops of its tasks. Every method states outright what it
    answers and what becomes of the fields, and is proved to take the node exactly where an
    uninterrupted run of the task's steps takes it. */
module Replica {
  import opened Basics
  import opened Engine
  import opened Timestamps
  import opened Validators
  import opened Wire
  import opened Glue

  /** What the build closure hands back to the actor. */
  datatype BuiltPayload = BuiltPayload(blockBytes: seq<Byte>, blockHash: Hash, blockNumber: nat, timestampMillis: U64)

  function PayloadOf(c: Spec, b: Block): BuiltPayload {
    BuiltPayload(c.encode(b), c.hash(b), b.number, ToMillis(b.timestamp))
  }

  // ── What a caller can rely on ──

  /** The engine gives a payload id within the attempts made. */
  predicate Grants(tree: Tree, head: Hash, finalized: Hash, timestamp: U64, moods: seq<ForkchoiceMood>) {
    && Ready in moods && head in tree && OnChain(tree, finalized, head, tree[head].number)
    && timestamp >= tree[head].timestamp
  }

  /** The engine takes a block in. */
  predicate TakesIn(c: Spec, tree: Tree, b: Block, mood: ImportMood) {
    && !mood.Broken? && b.parentHash in tree && c.executes(b)
    && b.number == tree[b.parentHash].number + 1
    && b.timestamp >= tree[b.parentHash].timestamp
  }

  /** Bytes a node votes for: they decode to a block the engine finds valid at once, and whose
      seconds fit in milliseconds. */
  predicate IsVotedFor(c: Spec, tree: Tree, bytes: seq<Byte>, mood: ImportMood) {
    && mood.Immediate? && c.decode(bytes).Some? && TakesIn(c, tree, c.decode(bytes).value, mood)
    && c.decode(bytes).value.timestamp <= U64_MAX / 1000
  }

  /** Bytes whose validation ends in an error and not in a verdict of the engine. */
  predicate IsErrored(c: Spec, tree: Tree, bytes: seq<Byte>, mood: ImportMood) {
    || c.decode(bytes).None? || mood.Broken? || c.decode(bytes).value.parentHash !in tree
    || (mood.Deferred? && TakesIn(c, tree, c.decode(bytes).value, mood))
  }

  /** A digest from the channel moves the tracker. */
  predicate Moves(info: map<Hash, BlockInfo>, tree: Tree, digest: Hash, mood: ForkchoiceMood) {
    digest in info && info[digest].hash in tree && !mood.Unreachable?
  }

  // ── Tasks over many messages ──

  function ProposalsOf(inbox: seq<Message>): seq<Propose> {
    if inbox == [] then []
    else
      var last := inbox[|inbox| - 1];
      ProposalsOf(inbox[..|inbox| - 1]) + (if last.ProposeMessage? then [last.propose] else [])
  }

  function VotesOf(inbox: seq<Message>): seq<Verify> {
    if inbox == [] then []
    else
      var last := inbox[|inbox| - 1];
      VotesOf(inbox[..|inbox| - 1]) + (if last.VerifyMessage? then [last.verify] else [])
  }

  /** How many of the messages hold a digest. */
  function LongEnough(frames: seq<seq<Byte>>): nat {
    if frames == [] then 0
    else LongEnough(frames[..|frames| - 1]) + (if |frames[|frames| - 1]| >= 32 then 1 else 0)
  }

  function ReceiveAll(n: Node, frames: seq<seq<Byte>>): Node {
    if frames == [] then n else Receive(ReceiveAll(n, frames[..|frames| - 1]), frames[|frames| - 1])
  }

  function FinalizeAll(n: Node, moods: seq<ForkchoiceMood>): Node {
    if moods == [] then n else FinalizeRun(FinalizeAll(n, moods[..|moods| - 1]), moods[|moods| - 1])
  }

  datatype Message =
    | ProposeMessage(propose: Propose, now: U64, env: BuildEnv)
    | VerifyMessage(verify: Verify, mood: ImportMood)
    | BroadcastMessage(digest: Hash)

  function HandleRun(c: Spec, n: Node, m: Message): Node {
    match m
    case ProposeMessage(msg, now, env) => ProposeRun(c, n, msg, now, env)
    case VerifyMessage(vote, mood) => VerifyRun(c, n, vote, mood)
    case BroadcastMessage(_) => n
  }

  function HandleAll(c: Spec, n: Node, inbox: seq<Message>): Node {
    if inbox == [] then n else HandleRun(c, HandleAll(c, n, inbox[..|inbox| - 1]), inbox[|inbox| - 1])
  }

  /** No message from number `k` on carries the digest. */
  predicate NoneFor(frames: seq<seq<Byte>>, d: Hash, k: nat) {
    forall j | k <= j < |frames| :: |frames[j]| < 32 || frames[j][..32] != d.bytes
  }

  /** Message `k` is the last that carries the digest. */
  predicate LatestFor(frames: seq<seq<Byte>>, d: Hash, k: int) {
    0 <= k < |frames| && |frames[k]| >= 32 && frames[k][..32] == d.bytes && NoneFor(frames, d, k + 1)
  }

  /** The store after the messages: under each digest what the last message for it carried, or what
      was there if there is none. */
  ghost predicate ReceivedRight(before: map<Hash, seq<Byte>>, after: map<Hash, seq<Byte>>, frames: seq<seq<Byte>>) {
    && (forall d | d in after ::
          || (d in before && after[d] == before[d] && NoneFor(frames, d, 0))
          || (exists k :: LatestFor(frames, d, k) && after[d] == frames[k][32..]))
    && before.Keys <= after.Keys
    && (forall k | 0 <= k < |frames| && |frames[k]| >= 32 :: Hash(frames[k][..32]) in after)
  }

  lemma ReceivedOneMore(
    before: map<Hash, seq<Byte>>, after: map<Hash, seq<Byte>>, frames: seq<seq<Byte>>, data: seq<Byte>)
    requires ReceivedRight(before, after, frames)
    ensures ReceivedRight(
              before, if |data| < 32 then after else after[Hash(data[..32]) := data[32..]], frames + [data])
  {
    var more := frames + [data];
    var after' := if |data| < 32 then after else after[Hash(data[..32]) := data[32..]];
    forall d | d in after'
      ensures || (d in before && after'[d] == before[d] && NoneFor(more, d, 0))
              || (exists k :: LatestFor(more, d, k) && after'[d] == more[k][32..])
    {
      if |data| >= 32 && d.bytes == data[..32] {
        assert d == Hash(data[..32]);
        assert LatestFor(more, d, |frames|);
      } else if k :| LatestFor(frames, d, k) && after[d] == frames[k][32..] {
        assert LatestFor(more, d, k);
      }
    }
  }

  /** The tracker after the digests: at the block of the last that moves it, or where it was. */
  ghost predicate TrackedRight(
    before: Finalized, after: Finalized, info: map<Hash, BlockInfo>, tree: Tree,
    digests: seq<Hash>, moods: seq<ForkchoiceMood>)
    requires |digests| == |moods|
  {
    && ((forall k | 0 <= k < |moods| :: !Moves(info, tree, digests[k], moods[k])) ==> after == before)
    && (forall k | 0 <= k < |moods| && Moves(info, tree, digests[k], moods[k])
                   && (forall j | k < j < |moods| :: !Moves(info, tree, digests[j], moods[j])) ::
          after == Finalized(info[digests[k]].hash, info[digests[k]].number))
  }

  lemma TrackedOneMore(
    before: Finalized, after: Finalized, info: map<Hash, BlockInfo>, tree: Tree,
    digests: seq<Hash>, moods: seq<ForkchoiceMood>, digest: Hash, mood: ForkchoiceMood)
    requires |digests| == |moods| && TrackedRight(before, after, info, tree, digests, moods)
    ensures var after' :=
              if Moves(info, tree, digest, mood) then Finalized(info[digest].hash, info[digest].number) else after;
            TrackedRight(before, after', info, tree, digests + [digest], moods + [mood])
  {
    var more, moreMoods := digests + [digest], moods + [mood];
    assert forall k | 0 <= k < |moods| :: more[k] == digests[k] && moreMoods[k] == moods[k];
    assert more[|moods|] == digest && moreMoods[|moods|] == mood;
    if !Moves(info, tree, digest, mood) {
      forall k | 0 <= k < |moreMoods| && Moves(info, tree, more[k], moreMoods[k])
                 && (forall j | k < j < |moreMoods| :: !Moves(info, tree, more[j], moreMoods[j]))
        ensures after == Finalized(info[more[k]].hash, info[more[k]].number)
      {
        forall j | k < j < |moods|
          ensures !Moves(info, tree, digests[j], moods[j])
        {
          assert !Moves(info, tree, more[j], moreMoods[j]);
        }
      }
      if forall k | 0 <= k < |moreMoods| :: !Moves(info, tree, more[k], moreMoods[k]) {
        forall k | 0 <= k < |moods|
          ensures !Moves(info, tree, digests[k], moods[k])
        {
          assert !Moves(info, tree, more[k], moreMoods[k]);
        }
      }
    }
  }

  lemma {:induction false} ReceiveAllIsRight(n: Node, frames: seq<seq<Byte>>)
    ensures ReceivedRight(n.stores.receivedBlocks, ReceiveAll(n, frames).stores.receivedBlocks, frames)
    ensures ReceiveAll(n, frames).metrics ==
            n.metrics.(blocksReceived := n.metrics.blocksReceived + LongEnough(frames))
    decreases |frames|
  {
    if frames != [] {
      var last := |frames| - 1;
      ReceiveAllIsRight(n, frames[..last]);
      ReceivedOneMore(n.stores.receivedBlocks, ReceiveAll(n, frames[..last]).stores.receivedBlocks,
                      frames[..last], frames[last]);
      assert frames[..last] + [frames[last]] == frames;
    }
  }

  /** One turn of the finalizer on the first digest of the channel. */
  lemma TurnIsExact(n: Node, mood: ForkchoiceMood)
    requires n.finalizer.Waiting? && n.channel != []
    ensures var n', d := FinalizeRun(n, mood), n.channel[0];
            && n'.finalizer.Waiting? && n'.channel == n.channel[1..] && n'.stores == n.stores
            && n'.finalized == (if Moves(n.stores.blockInfo, n.stores.tree, d, mood)
                                then Finalized(n.stores.blockInfo[d].hash, n.stores.blockInfo[d].number)
                                else n.finalized)
  {}

  lemma {:induction false} FinalizeAllDrains(n: Node, moods: seq<ForkchoiceMood>)
    requires n.finalizer.Waiting? && |moods| <= |n.channel|
    ensures var n' := FinalizeAll(n, moods);
            n'.finalizer.Waiting? && n'.channel == n.channel[|moods|..] && n'.stores == n.stores
    decreases |moods|
  {
    if moods != [] {
      FinalizeAllDrains(n, moods[..|moods| - 1]);
      TurnIsExact(FinalizeAll(n, moods[..|moods| - 1]), moods[|moods| - 1]);
    }
  }

  lemma {:induction false} FinalizeAllIsRight(n: Node, moods: seq<ForkchoiceMood>)
    requires n.finalizer.Waiting? && |moods| <= |n.channel|
    ensures TrackedRight(
              n.finalized, FinalizeAll(n, moods).finalized, n.stores.blockInfo, n.stores.tree,
              n.channel[..|moods|], moods)
    decreases |moods|
  {
    if moods != [] {
      var last, st := |moods| - 1, n.stores;
      var before, digest := FinalizeAll(n, moods[..last]), n.channel[last];
      assert n.channel[..|moods|] == n.channel[..last] + [digest];
      assert moods == moods[..last] + [moods[last]];
      FinalizeAllIsRight(n, moods[..last]);
      FinalizeAllDrains(n, moods[..last]);
      TurnIsExact(before, moods[last]);
      TrackedOneMore(n.finalized, before.finalized, st.blockInfo, st.tree,
                     n.channel[..last], moods[..last], digest, moods[last]);
    }
  }

  /** The bytes a vote is judged by: the node's own, or else those it received. */
  function FoundBytes(pending: map<Hash, seq<Byte>>, received: map<Hash, seq<Byte>>, d: Hash): Option<seq<Byte>> {
    if d in pending then Some(pending[d]) else if d in received then Some(received[d]) else None
  }

  /** The last finalized block, shared between the build closure and the finalizer. */
  class ForkchoiceTracker {
    var finalized: Finalized

    constructor (genesisHash: Hash)
      ensures finalized == Finalized(genesisHash, 0)
    {
      finalized := Finalized(genesisHash, 0);
    }

    method SetFinalized(hash: Hash, number: nat)
      modifies this
      ensures finalized == Finalized(hash, number)
    {
      finalized := Finalized(hash, number);
    }
  }

  class RunningNode {
    const spec: Spec
    const validators: ValidatorSet
    const channelCapacity: nat
    const engine: ExecutionEngine
    const tracker: ForkchoiceTracker
    var blockInfo: map<Hash, BlockInfo>
    var pendingBlocks: map<Hash, seq<Byte>>
    var receivedBlocks: map<Hash, seq<Byte>>
    var proposals: seq<Hash>
    var metrics: Metrics
    var channel: seq<Hash>

    /** The fields hold the data of the abstract node, whose tasks stand still. */
    ghost predicate Shows(n: Node)
      reads this, engine, tracker
    {
      && engine.spec == spec
      && n.validators == validators && n.channelCapacity == channelCapacity
      && n.stores == Stores(blockInfo, pendingBlocks, receivedBlocks, proposals, engine.tree)
      && n.metrics == metrics
      && n.finalized == tracker.finalized
      && n.channel == channel
    }

    constructor (spec: Spec, validators: ValidatorSet, channelCapacity: nat)
      ensures this.spec == spec && fresh(engine) && fresh(tracker)
      ensures Shows(InitialNode(spec, validators, channelCapacity))
      ensures this.validators == validators && this.channelCapacity == channelCapacity
      ensures blockInfo == map[EMPTY := BlockInfo(
                0, spec.hash(spec.genesis), 0, spec.genesisKey, spec.genesis.timestamp,
                Min(spec.genesis.timestamp * 1000, U64_MAX))]
      ensures pendingBlocks == map[] && receivedBlocks == map[] && proposals == [] && channel == []
      ensures engine.tree == map[spec.hash(spec.genesis) := spec.genesis]
      ensures tracker.finalized == Finalized(spec.hash(spec.genesis), 0)
      ensures metrics == Metrics(0, 0, 0, 0, 0, 0)
    {
      this.spec := spec;
      this.validators := validators;
      this.channelCapacity := channelCapacity;
      engine := new ExecutionEngine(spec);
      tracker := new ForkchoiceTracker(spec.GenesisHash());
      blockInfo := map[EMPTY := GenesisInfo(spec)];
      pendingBlocks, receivedBlocks := map[], map[];
      proposals, channel := [], [];
      metrics := Metrics(0, 0, 0, 0, 0, 0);
    }

    // ── The build and validate closures ──

    /** The retry loop: asks for a payload id until there is one, with the forkchoice state made of the
        tracker as it was before the first attempt. */
    method RequestPayload(request: BuildRequest, moods: seq<ForkchoiceMood>, ghost n: Node) returns (granted: bool)
      requires Shows(n) && n.task.Requested? && n.task.job.request == request && |moods| == ATTEMPTS
      ensures granted <==> Grants(engine.tree, request.parentHash, tracker.finalized.hash, request.timestamp, moods)
      ensures AskAll(Capture(n), moods) == if granted then n.(task := Resolving(n.task.job)) else FailBuild(n)
    {
      var fc := Forkchoice(request.parentHash, tracker.finalized.hash, tracker.finalized.hash);
      ghost var asking := Capture(n);
      granted := false;
      var attempt := 0;
      while attempt < ATTEMPTS && !granted
        invariant attempt <= ATTEMPTS
        invariant granted <==>
                  Grants(engine.tree, request.parentHash, tracker.finalized.hash, request.timestamp, moods[..attempt])
        invariant var now := AskAll(asking, moods[..attempt]);
                  if granted then now == n.(task := Resolving(n.task.job))
                  else if attempt < ATTEMPTS then now == n.(task := Asking(n.task.job, fc, attempt))
                  else now == FailBuild(n)
        decreases ATTEMPTS - attempt
      {
        var reply := engine.ForkChoiceUpdated(fc, Some(request.timestamp), moods[attempt]);
        granted := reply.Updated? && reply.payloadId;
        assert moods[..attempt + 1][..attempt] == moods[..attempt];
        assert moods[..attempt + 1] == moods[..attempt] + [moods[attempt]];
        attempt := attempt + 1;
      }
      AskAllSettled(asking, moods, attempt);
      assert moods[..|moods|] == moods;
    }

    method BuildPayload(request: BuildRequest, env: BuildEnv, ghost n: Node) returns (built: Option<BuiltPayload>)
      requires Shows(n) && n.task.Requested? && n.task.job.request == request && |env.moods| == ATTEMPTS
      modifies engine
      ensures var n' := BuildRun(spec, n, env);
              && (built.Some? ==> Shows(n') && n'.task.Recording? && n'.task.job == n.task.job && n'.log == n.log
                                  && built.value == PayloadOf(spec, n'.task.block))
              && (built.None? ==> n' == FailBuild(n) && Shows(n))
      ensures built.Some? <==>
              && Grants(old(engine.tree), request.parentHash, tracker.finalized.hash, request.timestamp, env.moods)
              && env.built.Some? && TakesIn(spec, old(engine.tree), env.built.value, env.import_)
      ensures built.Some? ==>
              var b := env.built.value;
              && built.value == BuiltPayload(spec.encode(b), spec.hash(b), b.number, Min(b.timestamp * 1000, U64_MAX))
              && engine.tree == old(engine.tree)[spec.hash(b) := b]
      ensures built.None? ==> engine.tree == old(engine.tree)
    {
      var granted := RequestPayload(request, env.moods, n);
      if !granted || env.built.None? {
        return None;
      }
      var block := env.built.value;
      var status := engine.NewPayload(block, env.import_);
      if !Imported(status) {
        return None;
      }
      built := Some(PayloadOf(spec, block));
    }

    method ValidateBlock(bytes: seq<Byte>, mood: ImportMood) returns (r: Validation)
      requires engine.spec == spec
      modifies engine
      ensures r == Glue.ValidateBlock(spec, old(engine.tree), bytes, mood)
      ensures engine.tree == TreeAfterValidate(spec, old(engine.tree), bytes, mood)
      ensures var decoded, before := spec.decode(bytes), old(engine.tree);
              && engine.tree == (if decoded.Some? && TakesIn(spec, before, decoded.value, mood)
                                 then before[spec.hash(decoded.value) := decoded.value] else before)
              && (r.ValidBlock? <==>
                    decoded.Some? && mood.Immediate? && TakesIn(spec, before, decoded.value, mood))
              && (r.InvalidBlock? <==>
                    && decoded.Some? && !mood.Broken? && decoded.value.parentHash in before
                    && !TakesIn(spec, before, decoded.value, mood))
              && (r.ValidBlock? ==>
                    var b := decoded.value;
                    r.meta == BlockMeta(spec.hash(b), b.number, b.timestamp, Min(b.timestamp * 1000, U64_MAX)))
    {
      var decoded := spec.decode(bytes);
      if decoded.None? {
        return ValidationError;
      }
      var b := decoded.value;
      var status := engine.NewPayload(b, mood);
      match status
      case Some(Valid) => r := ValidBlock(BlockMeta(spec.hash(b), b.number, b.timestamp, ToMillis(b.timestamp)));
      case Some(Invalid) => r := InvalidBlock;
      case _ => r := ValidationError;
    }

    // ── The application actor ──

    /** Answers with the digest of the block built, or not at all. */
    method HandlePropose(msg: Propose, now: U64, env: BuildEnv, ghost n: Node) returns (answer: Option<Hash>)
      requires Shows(n) && n.task.Idle? && |env.moods| == ATTEMPTS
      modifies this, engine
      ensures var n' := ProposeRun(spec, n, msg, now, env);
              && Shows(n') && n'.task.Idle?
              && n'.log.answers == n.log.answers
                   + (if answer.Some? then [Answer(|n.log.handed| + 1, msg.parent, answer.value)] else [])
      ensures var request := MakeRequest(old(blockInfo), msg, now);
              && (answer.Some? <==>
                    && Grants(
                         old(engine.tree), request.parentHash, tracker.finalized.hash, request.timestamp, env.moods)
                    && env.built.Some? && TakesIn(spec, old(engine.tree), env.built.value, env.import_))
              && (answer.Some? ==>
                    var b, d := env.built.value, spec.hash(env.built.value);
                    && answer.value == d
                    && blockInfo == old(blockInfo)[d := BlockInfo(
                         b.number, d, msg.view, msg.leader, request.timestamp, Min(b.timestamp * 1000, U64_MAX))]
                    && pendingBlocks == old(pendingBlocks)[d := spec.encode(b)]
                    && proposals == old(proposals) + [d] && engine.tree == old(engine.tree)[d := b])
      ensures answer.None? ==>
              && blockInfo == old(blockInfo) && pendingBlocks == old(pendingBlocks)
              && proposals == old(proposals) && engine.tree == old(engine.tree)
      ensures receivedBlocks == old(receivedBlocks) && channel == old(channel)
      ensures metrics == old(metrics).(
                blocksProposed := old(metrics).blocksProposed + 1,
                errors := old(metrics).errors + (if answer.None? then 1 else 0))
    {
      metrics := metrics.(blocksProposed := metrics.blocksProposed + 1);
      var request := MakeRequest(blockInfo, msg, now);
      ghost var started := StartPropose(n, msg, now);
      var built := BuildPayload(request, env, started);
      if built.None? {
        metrics := metrics.(errors := metrics.errors + 1);
        assert n.log.answers + [] == n.log.answers;
        return None;
      }
      var payload := built.value;
      blockInfo := blockInfo[payload.blockHash :=
        BlockInfo(payload.blockNumber, payload.blockHash, msg.view, msg.leader,
                  request.timestamp, payload.timestampMillis)];
      pendingBlocks := pendingBlocks[payload.blockHash := payload.blockBytes];
      proposals := proposals + [payload.blockHash];
      answer := Some(payload.blockHash);
    }

    method HandleVerify(vote: Verify, mood: ImportMood, ghost n: Node) returns (accepted: bool)
      requires Shows(n) && n.task.Idle?
      modifies this, engine
      ensures var n' := VerifyRun(spec, n, vote, mood);
              && Shows(n') && n'.task.Idle?
              && n'.log.verdicts == n.log.verdicts + [Verdict(vote.payload, accepted)]
      ensures vote.proposer !in validators
              || FoundBytes(old(pendingBlocks), old(receivedBlocks), vote.payload).None? ==>
              && !accepted && engine.tree == old(engine.tree)
              && metrics == old(metrics).(failedValidations := old(metrics).failedValidations + 1)
      ensures accepted ==> vote.proposer in validators
      ensures vote.proposer in validators && FoundBytes(old(pendingBlocks), old(receivedBlocks), vote.payload).Some? ==>
              var bytes := FoundBytes(old(pendingBlocks), old(receivedBlocks), vote.payload).value;
              && (accepted <==> IsVotedFor(spec, old(engine.tree), bytes, mood))
              && metrics.errors ==
                   old(metrics).errors + (if IsErrored(spec, old(engine.tree), bytes, mood) then 1 else 0)
              && (accepted ==>
                    var b := spec.decode(bytes).value;
                    && blockInfo == old(blockInfo)[vote.payload := BlockInfo(
                         b.number, spec.hash(b), vote.view, vote.proposer, b.timestamp, b.timestamp * 1000)]
                    && engine.tree == old(engine.tree)[spec.hash(b) := b])
      ensures !accepted ==> blockInfo == old(blockInfo)
      ensures pendingBlocks == old(pendingBlocks) && receivedBlocks == old(receivedBlocks)
      ensures proposals == old(proposals) && channel == old(channel)
      ensures metrics.blocksVerified == old(metrics).blocksVerified + (if accepted then 1 else 0)
      ensures metrics.failedValidations == old(metrics).failedValidations + (if accepted then 0 else 1)
      ensures metrics.blocksProposed == old(metrics).blocksProposed
    {
      if vote.proposer !in validators {
        metrics := metrics.(failedValidations := metrics.failedValidations + 1);
        return false;
      }
      var bytes: Option<seq<Byte>> :=
        if vote.payload in pendingBlocks then Some(pendingBlocks[vote.payload])
        else if vote.payload in receivedBlocks then Some(receivedBlocks[vote.payload])
        else None;
      if bytes.None? {
        metrics := metrics.(failedValidations := metrics.failedValidations + 1);
        return false;
      }
      accepted := Judge(vote, bytes.value, mood, Look(StartVerify(n, vote)));
    }

    /** Validates the bytes, then records and counts the outcome. */
    method Judge(vote: Verify, bytes: seq<Byte>, mood: ImportMood, ghost n: Node) returns (accepted: bool)
      requires Shows(n) && n.task == Validating(vote, bytes)
      modifies this, engine
      ensures var n' := Note(Validate(spec, n, mood));
              && Shows(n') && n'.task.Idle?
              && n'.log.verdicts == n.log.verdicts + [Verdict(vote.payload, accepted)]
      ensures accepted <==> IsVotedFor(spec, old(engine.tree), bytes, mood)
      ensures accepted ==>
              var b := spec.decode(bytes).value;
              && blockInfo == old(blockInfo)[vote.payload := BlockInfo(
                   b.number, spec.hash(b), vote.view, vote.proposer, b.timestamp, b.timestamp * 1000)]
              && engine.tree == old(engine.tree)[spec.hash(b) := b]
      ensures !accepted ==> blockInfo == old(blockInfo)
      ensures pendingBlocks == old(pendingBlocks) && receivedBlocks == old(receivedBlocks)
      ensures proposals == old(proposals) && channel == old(channel)
      ensures metrics == old(metrics).(
                blocksVerified := old(metrics).blocksVerified + (if accepted then 1 else 0),
                failedValidations := old(metrics).failedValidations + (if accepted then 0 else 1),
                errors := old(metrics).errors + (if IsErrored(spec, old(engine.tree), bytes, mood) then 1 else 0))
    {
      var validation := ValidateBlock(bytes, mood);
      accepted := validation.ValidBlock? && validation.meta.timestampMillis / 1000 == validation.meta.timestamp;
      if accepted {
        var meta := validation.meta;
        blockInfo := blockInfo[vote.payload :=
          BlockInfo(meta.number, meta.hash, vote.view, vote.proposer, meta.timestamp, meta.timestampMillis)];
        metrics := metrics.(blocksVerified := metrics.blocksVerified + 1);
      } else {
        if validation.ValidationError? {
          metrics := metrics.(errors := metrics.errors + 1);
        }
        metrics := metrics.(failedValidations := metrics.failedValidations + 1);
      }
    }

    /** The actor's event loop, over the messages of one mailbox. */
    method Run(inbox: seq<Message>, ghost n: Node)
      requires Shows(n) && n.task.Idle?
      requires forall m | m in inbox && m.ProposeMessage? :: |m.env.moods| == ATTEMPTS
      modifies this, engine
      ensures Shows(HandleAll(spec, n, inbox)) && HandleAll(spec, n, inbox).task.Idle?
      ensures metrics.blocksProposed == old(metrics).blocksProposed + |ProposalsOf(inbox)|
      ensures metrics.blocksVerified + metrics.failedValidations ==
              old(metrics).blocksVerified + old(metrics).failedValidations + |VotesOf(inbox)|
    {
      for k := 0 to |inbox|
        invariant Shows(HandleAll(spec, n, inbox[..k])) && HandleAll(spec, n, inbox[..k]).task.Idle?
        invariant metrics.blocksProposed == old(metrics).blocksProposed + |ProposalsOf(inbox[..k])|
        invariant metrics.blocksVerified + metrics.failedValidations ==
                  old(metrics).blocksVerified + old(metrics).failedValidations + |VotesOf(inbox[..k])|
      {
        ghost var before := HandleAll(spec, n, inbox[..k]);
        assert inbox[..k + 1][..k] == inbox[..k];
        match inbox[k] {
          case ProposeMessage(msg, now, env) =>
            var _ := HandlePropose(msg, now, env, before);
          case VerifyMessage(vote, mood) =>
            var _ := HandleVerify(vote, mood, before);
          case BroadcastMessage(_) =>
        }
      }
      assert inbox[..|inbox|] == inbox;
    }

    // ── The relay and the block receiver ──

    method Broadcast(digest: Hash) returns (frame: Option<seq<Byte>>)
      ensures frame == Outgoing(pendingBlocks, digest)
      ensures frame.Some? <==> digest in pendingBlocks
      ensures frame.Some? ==> frame.value == digest.bytes + pendingBlocks[digest]
      ensures frame.Some? ==> Parse(frame.value) == Some((digest, pendingBlocks[digest]))
    {
      if digest !in pendingBlocks {
        return None;
      }
      var msg := digest.bytes;
      msg := msg + pendingBlocks[digest];
      FramesAreOneFormat(digest, pendingBlocks[digest], msg);
      frame := Some(msg);
    }

    method ReceiveBlocks(frames: seq<seq<Byte>>, ghost n: Node)
      requires Shows(n)
      modifies `receivedBlocks, `metrics
      ensures Shows(ReceiveAll(n, frames))
      ensures ReceivedRight(old(receivedBlocks), receivedBlocks, frames)
      ensures metrics == old(metrics).(blocksReceived := old(metrics).blocksReceived + LongEnough(frames))
    {
      for k := 0 to |frames|
        invariant Shows(ReceiveAll(n, frames[..k]))
      {
        assert frames[..k + 1][..k] == frames[..k];
        var data := frames[k];
        if |data| < 32 {
          continue;
        }
        receivedBlocks := receivedBlocks[Hash(data[..32]) := data[32..]];
        metrics := metrics.(blocksReceived := metrics.blocksReceived + 1);
      }
      assert frames[..|frames|] == frames;
      ReceiveAllIsRight(n, frames);
    }

    // ── The reporter and the finalizer ──

    method ReportFinalization(digest: Hash, ghost n: Node)
      requires Shows(n)
      modifies `channel, `metrics
      ensures Shows(Report(n, digest))
      ensures channel == if |old(channel)| < channelCapacity then old(channel) + [digest] else old(channel)
      ensures metrics == old(metrics).(blocksFinalized := old(metrics).blocksFinalized + 1)
    {
      if |channel| < channelCapacity {
        channel := channel + [digest];
      }
      metrics := metrics.(blocksFinalized := metrics.blocksFinalized + 1);
    }

    /** One digest's turn: the tracker moves to its block exactly if it is recorded and the engine,
        which has the block, answers. */
    method ApplyFinalization(digest: Hash, mood: ForkchoiceMood, ghost n: Node)
      requires Shows(n) && n.finalizer == Taken(digest)
      modifies tracker
      ensures var n' := Glue.SetFinalized(UpdateForkchoice(Lookup(n), mood)); Shows(n') && n'.finalizer.Waiting?
      ensures tracker.finalized ==
              if Moves(blockInfo, engine.tree, digest, mood)
              then Finalized(blockInfo[digest].hash, blockInfo[digest].number) else old(tracker.finalized)
    {
      if digest !in blockInfo {
        return;
      }
      var hash, number := blockInfo[digest].hash, blockInfo[digest].number;
      var reply := engine.ForkChoiceUpdated(Forkchoice(hash, hash, hash), None, mood);
      if reply.Updated? && reply.valid {
        tracker.SetFinalized(hash, number);
      }
    }

    /** Drains the channel: every digest in it gets one turn, in order. */
    method DrainFinalizations(moods: seq<ForkchoiceMood>, ghost n: Node)
      requires Shows(n) && n.finalizer.Waiting? && |moods| == |channel|
      modifies `channel, tracker
      ensures Shows(FinalizeAll(n, moods)) && FinalizeAll(n, moods).finalizer.Waiting?
      ensures channel == []
      ensures TrackedRight(old(tracker.finalized), tracker.finalized, blockInfo, engine.tree, old(channel), moods)
    {
      var turn := 0;
      while channel != []
        invariant turn + |channel| == |moods|
        invariant Shows(FinalizeAll(n, moods[..turn])) && FinalizeAll(n, moods[..turn]).finalizer.Waiting?
        decreases |channel|
      {
        ghost var before := FinalizeAll(n, moods[..turn]);
        assert moods[..turn + 1][..turn] == moods[..turn];
        var digest := channel[0];
        channel := channel[1..];
        ApplyFinalization(digest, moods[turn], Take(before));
        turn := turn + 1;
      }
      assert moods[..turn] == moods;
      FinalizeAllIsRight(n, moods);
    }
  }
}
