/** One validator's glue between consensus and execution, as atomic steps.

    The application actor, the block receiver, the finalization reporter and the finalizer are
    separate tasks over shared stores. A step is what one of them does without giving another a
    chance to run: a look at one store, an update of one store, or one call to the engine. Where
    the actor and the finalizer stand between their steps is part of the state. */
module Glue {
  import opened Basics
  import opened Engine
  import opened Timestamps
  import opened Validators
  import opened Wire

  // ── Stores ──

  datatype BlockInfo = BlockInfo(
    number: nat, hash: Hash, view: U64, proposer: Key, timestamp: U64, timestampMillis: U64)

  datatype Metrics = Metrics(
    blocksProposed: nat, blocksVerified: nat, blocksFinalized: nat, blocksReceived: nat,
    failedValidations: nat, errors: nat)

  datatype Finalized = Finalized(hash: Hash, number: nat)

  /** What the node remembers about blocks: the three shared maps, the log of its own proposals,
      and the engine's tree. */
  datatype Stores = Stores(
    blockInfo: map<Hash, BlockInfo>,
    pendingBlocks: map<Hash, seq<Byte>>,
    receivedBlocks: map<Hash, seq<Byte>>,
    proposals: seq<Hash>,
    tree: Tree)

  // ── Messages and requests ──

  datatype Propose = Propose(parentView: U64, parent: Hash, epoch: U64, view: U64, leader: Key)
  datatype Verify = Verify(parent: Hash, payload: Hash, proposer: Key, view: U64)

  datatype BuildRequest = BuildRequest(
    parentHash: Hash, parentNumber: nat, parentView: U64, parentDigest: Hash, epoch: U64, view: U64,
    proposer: Key, timestamp: U64, timestampMillis: U64)

  datatype BlockMeta = BlockMeta(hash: Hash, number: nat, timestamp: U64, timestampMillis: U64)
  datatype Validation = ValidBlock(meta: BlockMeta) | InvalidBlock | ValidationError

  /** The number of times the build closure asks for a payload id. */
  const ATTEMPTS: nat := 5

  // ── Where the tasks stand ──

  datatype Job = Job(msg: Propose, now: U64, request: BuildRequest)

  datatype Task =
    | Idle
    // a proposal
    | Requested(job: Job)
    | Asking(job: Job, fc: Forkchoice, attempt: nat)
    | Resolving(job: Job)
    | Importing(job: Job, block: Block)
    | Recording(job: Job, block: Block)
    | Storing(job: Job, block: Block)
    | Answering(job: Job, block: Block)
    // a verification
    | Looking(vote: Verify, found: Option<seq<Byte>>)
    | Validating(vote: Verify, bytes: seq<Byte>)
    | Noting(vote: Verify, meta: BlockMeta)

  datatype FinalizerTask =
    | Waiting
    | Taken(digest: Hash)
    | Updating(digest: Hash, hash: Hash, number: nat)
    | Applying(digest: Hash, hash: Hash, number: nat)

  /** The answer to the `turn`-th proposal handed out. */
  datatype Answer = Answer(turn: nat, parent: Hash, digest: Hash)
  datatype Verdict = Verdict(payload: Hash, accepted: bool)

  /** What has gone in and out so far: the reported finalizations, the digests the tracker was
      moved to, the answered proposals, the verdicts, the proposals handed out, the verifications
      asked for, the builds that failed, and the finalizations the reporter dropped or the finalizer
      skipped. */
  datatype Log = Log(
    reports: seq<Hash>, pointers: seq<Hash>, answers: seq<Answer>, verdicts: seq<Verdict>,
    handed: seq<Propose>, asked: seq<Verify>, failedBuilds: nat, dropped: seq<Hash>, skipped: seq<Hash>)

  datatype Node = Node(
    validators: ValidatorSet,
    channelCapacity: nat,
    stores: Stores,
    metrics: Metrics,
    finalized: Finalized,
    channel: seq<Hash>,
    task: Task,
    finalizer: FinalizerTask,
    log: Log)

  predicate IsBuilding(t: Task) {
    t.Requested? || t.Asking? || t.Resolving? || t.Importing? || t.Recording? || t.Storing? || t.Answering?
  }

  predicate IsVerifying(t: Task) {
    t.Looking? || t.Validating? || t.Noting?
  }

  // ── Proposing ──

  function GenesisInfo(c: Spec): BlockInfo {
    BlockInfo(0, c.GenesisHash(), 0, c.genesisKey, c.genesis.timestamp, ToMillis(c.genesis.timestamp))
  }

  function MakeRequest(info: map<Hash, BlockInfo>, msg: Propose, now: U64): BuildRequest {
    var (number, hash, millis) :=
      if msg.parent in info then
        (info[msg.parent].number, info[msg.parent].hash, info[msg.parent].timestampMillis)
      else
        (0, EMPTY, 0);
    var next := NextMillis(now, millis);
    BuildRequest(hash, number, msg.parentView, msg.parent, msg.epoch, msg.view, msg.leader, next / 1000, next)
  }

  function StartPropose(n: Node, msg: Propose, now: U64): Node {
    if !n.task.Idle? then n
    else n.(
      task := Requested(Job(msg, now, MakeRequest(n.stores.blockInfo, msg, now))),
      metrics := n.metrics.(blocksProposed := n.metrics.blocksProposed + 1),
      log := n.log.(handed := n.log.handed + [msg]))
  }

  /** The build closure reads the tracker once, before its first attempt. */
  function Capture(n: Node): Node {
    if !n.task.Requested? then n
    else
      var f := n.finalized.hash;
      n.(task := Asking(n.task.job, Forkchoice(n.task.job.request.parentHash, f, f), 0))
  }

  function CountError(n: Node): Node {
    n.(metrics := n.metrics.(errors := n.metrics.errors + 1))
  }

  function FailBuild(n: Node): Node {
    CountError(n).(task := Idle, log := n.log.(failedBuilds := n.log.failedBuilds + 1))
  }

  function Ask(n: Node, mood: ForkchoiceMood): Node {
    if !n.task.Asking? then n
    else
      var reply := ForkchoiceUpdated(n.stores.tree, n.task.fc, Some(n.task.job.request.timestamp), mood);
      if reply.Updated? && reply.payloadId then n.(task := Resolving(n.task.job))
      else if n.task.attempt + 1 < ATTEMPTS then n.(task := Asking(n.task.job, n.task.fc, n.task.attempt + 1))
      else FailBuild(n)
  }

  function Resolve(n: Node, built: Option<Block>): Node {
    if !n.task.Resolving? then n
    else if built.None? then FailBuild(n)
    else n.(task := Importing(n.task.job, built.value))
  }

  function Import(c: Spec, n: Node, mood: ImportMood): Node {
    if !n.task.Importing? then n
    else
      var reply := ImportReply(c, n.stores.tree, n.task.block, mood);
      if !Imported(reply) then FailBuild(n)
      else n.(
        task := Recording(n.task.job, n.task.block),
        stores := n.stores.(tree := TreeAfterImport(c, n.stores.tree, n.task.block, mood)))
  }

  function Record(c: Spec, n: Node): Node {
    if !n.task.Recording? then n
    else
      var job, b := n.task.job, n.task.block;
      var info := BlockInfo(
        b.number, c.hash(b), job.msg.view, job.msg.leader, job.request.timestamp, ToMillis(b.timestamp));
      n.(task := Storing(job, b), stores := n.stores.(blockInfo := n.stores.blockInfo[c.hash(b) := info]))
  }

  function Store(c: Spec, n: Node): Node {
    if !n.task.Storing? then n
    else
      var b := n.task.block;
      n.(task := Answering(n.task.job, b),
         stores := n.stores.(pendingBlocks := n.stores.pendingBlocks[c.hash(b) := c.encode(b)]))
  }

  function AnswerPropose(c: Spec, n: Node): Node {
    if !n.task.Answering? then n
    else
      var digest := c.hash(n.task.block);
      n.(task := Idle,
         stores := n.stores.(proposals := n.stores.proposals + [digest]),
         log := n.log.(answers := n.log.answers + [Answer(|n.log.handed|, n.task.job.msg.parent, digest)]))
  }

  // ── Verifying ──

  function Vote(n: Node, payload: Hash, accepted: bool): Node {
    var m := n.metrics;
    n.(
      task := Idle,
      metrics :=
        if accepted then m.(blocksVerified := m.blocksVerified + 1)
        else m.(failedValidations := m.failedValidations + 1),
      log := n.log.(verdicts := n.log.verdicts + [Verdict(payload, accepted)]))
  }

  function StartVerify(n: Node, vote: Verify): Node {
    if !n.task.Idle? then n
    else
      var q := n.(log := n.log.(asked := n.log.asked + [vote]));
      if vote.proposer !in n.validators then Vote(q, vote.payload, false)
      else
        var pending := n.stores.pendingBlocks;
        q.(task := Looking(vote, if vote.payload in pending then Some(pending[vote.payload]) else None))
  }

  function Look(n: Node): Node {
    if !n.task.Looking? then n
    else
      var vote, received := n.task.vote, n.stores.receivedBlocks;
      if n.task.found.Some? then n.(task := Validating(vote, n.task.found.value))
      else if vote.payload in received then n.(task := Validating(vote, received[vote.payload]))
      else Vote(n, vote.payload, false)
  }

  /** The validate closure: the parent hash it is given plays no part. */
  function ValidateBlock(c: Spec, tree: Tree, bytes: seq<Byte>, mood: ImportMood): Validation {
    match c.decode(bytes)
    case None => ValidationError
    case Some(b) =>
      match ImportReply(c, tree, b, mood)
      case Some(Valid) => ValidBlock(BlockMeta(c.hash(b), b.number, b.timestamp, ToMillis(b.timestamp)))
      case Some(Invalid) => InvalidBlock
      case _ => ValidationError
  }

  function TreeAfterValidate(c: Spec, tree: Tree, bytes: seq<Byte>, mood: ImportMood): Tree {
    match c.decode(bytes)
    case None => tree
    case Some(b) => TreeAfterImport(c, tree, b, mood)
  }

  function Validate(c: Spec, n: Node, mood: ImportMood): Node {
    if !n.task.Validating? then n
    else
      var vote := n.task.vote;
      var q := n.(stores := n.stores.(tree := TreeAfterValidate(c, n.stores.tree, n.task.bytes, mood)));
      match ValidateBlock(c, n.stores.tree, n.task.bytes, mood)
      case ValidBlock(meta) =>
        if meta.timestampMillis / 1000 != meta.timestamp then Vote(q, vote.payload, false)
        else q.(task := Noting(vote, meta))
      case InvalidBlock => Vote(q, vote.payload, false)
      case ValidationError => Vote(CountError(q), vote.payload, false)
  }

  function Note(n: Node): Node {
    if !n.task.Noting? then n
    else
      var vote, meta := n.task.vote, n.task.meta;
      var info := BlockInfo(meta.number, meta.hash, vote.view, vote.proposer, meta.timestamp, meta.timestampMillis);
      Vote(n.(stores := n.stores.(blockInfo := n.stores.blockInfo[vote.payload := info])), vote.payload, true)
  }

  // ── The block channel ──

  /** The frame the relay hands to the transport, if it has the block. */
  function Outgoing(pending: map<Hash, seq<Byte>>, digest: Hash): Option<seq<Byte>> {
    if digest in pending then Some(Frame(digest, pending[digest])) else None
  }

  function Receive(n: Node, data: seq<Byte>): Node {
    match Parse(data)
    case None => n
    case Some((digest, block)) =>
      n.(stores := n.stores.(receivedBlocks := n.stores.receivedBlocks[digest := block]),
         metrics := n.metrics.(blocksReceived := n.metrics.blocksReceived + 1))
  }

  // ── Finalization ──

  /** The reporter never blocks: a digest that finds the channel full is dropped. */
  function Report(n: Node, digest: Hash): Node {
    var room := |n.channel| < n.channelCapacity;
    n.(
      channel := if room then n.channel + [digest] else n.channel,
      metrics := n.metrics.(blocksFinalized := n.metrics.blocksFinalized + 1),
      log := n.log.(
        reports := n.log.reports + [digest],
        dropped := if room then n.log.dropped else n.log.dropped + [digest]))
  }

  function Take(n: Node): Node {
    if !n.finalizer.Waiting? || n.channel == [] then n
    else n.(finalizer := Taken(n.channel[0]), channel := n.channel[1..])
  }

  function Skip(n: Node, digest: Hash): Node {
    n.(finalizer := Waiting, log := n.log.(skipped := n.log.skipped + [digest]))
  }

  function Lookup(n: Node): Node {
    if !n.finalizer.Taken? then n
    else
      var d, info := n.finalizer.digest, n.stores.blockInfo;
      if d !in info then Skip(n, d)
      else n.(finalizer := Updating(d, info[d].hash, info[d].number))
  }

  function UpdateForkchoice(n: Node, mood: ForkchoiceMood): Node {
    if !n.finalizer.Updating? then n
    else
      var h := n.finalizer.hash;
      var reply := ForkchoiceUpdated(n.stores.tree, Forkchoice(h, h, h), None, mood);
      if reply.Updated? && reply.valid then n.(finalizer := Applying(n.finalizer.digest, h, n.finalizer.number))
      else Skip(n, n.finalizer.digest)
  }

  function SetFinalized(n: Node): Node {
    if !n.finalizer.Applying? then n
    else n.(
      finalizer := Waiting,
      finalized := Finalized(n.finalizer.hash, n.finalizer.number),
      log := n.log.(pointers := n.log.pointers + [n.finalizer.digest]))
  }

  // ── All steps ──

  datatype Action =
    | DoStartPropose(msg: Propose, now: U64)
    | DoCapture
    | DoAsk(forkchoice: ForkchoiceMood)
    | DoResolve(built: Option<Block>)
    | DoImport(mood: ImportMood)
    | DoRecord
    | DoStore
    | DoAnswer
    | DoStartVerify(vote: Verify)
    | DoLook
    | DoValidate(mood: ImportMood)
    | DoNote
    | DoBroadcast(digest: Hash)
    | DoReceive(data: seq<Byte>)
    | DoReport(digest: Hash)
    | DoTake
    | DoLookup
    | DoUpdate(forkchoice: ForkchoiceMood)
    | DoSetFinalized

  /** A step of a task that stands elsewhere leaves the state alone. */
  function Step(c: Spec, n: Node, a: Action): Node {
    match a
    case DoStartPropose(msg, now) => StartPropose(n, msg, now)
    case DoCapture => Capture(n)
    case DoAsk(mood) => Ask(n, mood)
    case DoResolve(built) => Resolve(n, built)
    case DoImport(mood) => Import(c, n, mood)
    case DoRecord => Record(c, n)
    case DoStore => Store(c, n)
    case DoAnswer => AnswerPropose(c, n)
    case DoStartVerify(vote) => StartVerify(n, vote)
    case DoLook => Look(n)
    case DoValidate(mood) => Validate(c, n, mood)
    case DoNote => Note(n)
    case DoBroadcast(_) => n
    case DoReceive(data) => Receive(n, data)
    case DoReport(digest) => Report(n, digest)
    case DoTake => Take(n)
    case DoLookup => Lookup(n)
    case DoUpdate(mood) => UpdateForkchoice(n, mood)
    case DoSetFinalized => SetFinalized(n)
  }

  // ── Uninterrupted runs of the actor ──

  /** What the environment decides during one proposal: the engine's moods over the attempts, the
      block it resolves to, and how the self-import goes. */
  datatype BuildEnv = BuildEnv(moods: seq<ForkchoiceMood>, built: Option<Block>, import_: ImportMood)

  function AskAll(n: Node, moods: seq<ForkchoiceMood>): Node {
    if moods == [] then n else Ask(AskAll(n, moods[..|moods| - 1]), moods[|moods| - 1])
  }

  /** The build closure, from the request to an imported block or a failure. */
  function BuildRun(c: Spec, n: Node, env: BuildEnv): Node {
    Import(c, Resolve(AskAll(Capture(n), env.moods), env.built), env.import_)
  }

  function ProposeRun(c: Spec, n: Node, msg: Propose, now: U64, env: BuildEnv): Node {
    AnswerPropose(c, Store(c, Record(c, BuildRun(c, StartPropose(n, msg, now), env))))
  }

  function VerifyRun(c: Spec, n: Node, vote: Verify, mood: ImportMood): Node {
    Note(Validate(c, Look(StartVerify(n, vote)), mood))
  }

  /** The finalizer's turn for one digest. */
  function FinalizeRun(n: Node, mood: ForkchoiceMood): Node {
    SetFinalized(UpdateForkchoice(Lookup(Take(n)), mood))
  }

  // ── The retry loop ──

  /** Asking again after the loop has ended changes nothing. */
  lemma {:induction false} AskAllSettled(n: Node, moods: seq<ForkchoiceMood>, k: nat)
    requires k <= |moods| && !AskAll(n, moods[..k]).task.Asking?
    ensures AskAll(n, moods) == AskAll(n, moods[..k])
    decreases |moods|
  {
    if k == |moods| {
      assert moods[..k] == moods;
    } else {
      var shorter := moods[..|moods| - 1];
      assert shorter[..k] == moods[..k];
      AskAllSettled(n, shorter, k);
    }
  }

  /** A forkchoice state the engine finds unknown, malformed or early is refused every time. */
  lemma {:induction false} AskAllRefused(n: Node, moods: seq<ForkchoiceMood>)
    requires n.task.Asking? && n.task.attempt == 0 && |moods| <= ATTEMPTS
    requires WellFormed(n.stores.tree, n.task.fc) ==>
               !AttributesFollow(n.task.job.request.timestamp, n.stores.tree[n.task.fc.head])
    ensures AskAll(n, moods) ==
            if |moods| < ATTEMPTS then n.(task := Asking(n.task.job, n.task.fc, |moods|)) else FailBuild(n)
    decreases |moods|
  {
    if moods != [] {
      AskAllRefused(n, moods[..|moods| - 1]);
    }
  }

  /** The loop asks at most five times, and stops at the first payload id. */
  lemma {:induction false} AskAllOutcome(n: Node, moods: seq<ForkchoiceMood>)
    requires n.task.Asking? && n.task.attempt == 0 && |moods| <= ATTEMPTS
    requires WellFormed(n.stores.tree, n.task.fc)
    requires AttributesFollow(n.task.job.request.timestamp, n.stores.tree[n.task.fc.head])
    ensures AskAll(n, moods) ==
            if Ready in moods then n.(task := Resolving(n.task.job))
            else if |moods| < ATTEMPTS then n.(task := Asking(n.task.job, n.task.fc, |moods|))
            else FailBuild(n)
    decreases |moods|
  {
    if moods != [] {
      var last := |moods| - 1;
      AskAllOutcome(n, moods[..last]);
      assert moods == moods[..last] + [moods[last]];
    }
  }

  /** The node as `Actor::new` and `ForkchoiceTracker::new` leave it, over an engine that holds genesis. */
  function InitialNode(c: Spec, validators: ValidatorSet, channelCapacity: nat): Node {
    Node(validators, channelCapacity,
         Stores(map[EMPTY := GenesisInfo(c)], map[], map[], [], map[c.GenesisHash() := c.genesis]),
         Metrics(0, 0, 0, 0, 0, 0),
         Finalized(c.GenesisHash(), 0),
         [], Idle, Waiting, Log([], [], [], [], [], [], 0, [], []))
  }
}
