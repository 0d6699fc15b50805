/** Which proposals go through: none on a parent that is not recorded, and exactly those on the
    finalized chain whose time fits, as far as the engine obliges. */
module Proposals {
  import opened Basics
  import opened Ancestry
  import opened Engine
  import opened Timestamps
  import opened Glue
  import opened System
  import opened Agreement
  import opened Lineage
  import opened Finality
  import opened Conservation

  // ── No proposal without a known parent ──

  /** In every reachable state, a build on an unrecorded parent is still asking for a payload id,
      and no step takes it further: it ends by failing, and no store or answer has changed. */
  lemma UnknownParentNeverBuilt(c: Spec, env: Consensus, s: Sys, i: nat, a: Action)
    requires c.Valid() && Reachable(c, env, s) && i < |s.nodes| && IsBuilding(s.nodes[i].task)
    requires s.nodes[i].task.job.msg.parent !in s.nodes[i].stores.blockInfo
    ensures var n, n' := s.nodes[i], Step(c, s.nodes[i], a);
            && (n.task.Requested? || n.task.Asking?)
            && n.task.job.request.parentHash == EMPTY
            && (n'.task.Idle? || ((n'.task.Requested? || n'.task.Asking?) && n'.task.job == n.task.job))
            && (a.DoReceive? || n'.stores == n.stores)
            && n'.stores.blockInfo == n.stores.blockInfo && n'.stores.pendingBlocks == n.stores.pendingBlocks
            && n'.log.answers == n.log.answers
  {
    ReachableOk(c, env, s);
    var w, n := s.world, s.nodes[i];
    assert NodeOk(c, w, n);
    if n.task.Resolving? {
      GrantedParent(c, w, n, n.task.job);
    }
    UnknownHeadIsRefused(c, n, a);
  }

  lemma UnknownHeadIsRefused(c: Spec, n: Node, a: Action)
    requires n.task.Requested? || (n.task.Asking? && n.task.fc.head !in n.stores.tree)
    ensures var n' := Step(c, n, a);
            && (n'.task.Idle? || ((n'.task.Requested? || n'.task.Asking?) && n'.task.job == n.task.job))
            && (a.DoReceive? || n'.stores == n.stores)
            && n'.stores.blockInfo == n.stores.blockInfo && n'.stores.pendingBlocks == n.stores.pendingBlocks
            && n'.log.answers == n.log.answers
  {}

  // ── Requests ──

  /** A request carries the message, the parent as recorded (or the zero hash), and a time one past
      the parent's, or the clock if that is later, saturating, in milliseconds and floored. */
  lemma RequestIsExact(info: map<Hash, BlockInfo>, msg: Propose, now: U64)
    ensures var r := MakeRequest(info, msg, now);
            var millis := if msg.parent in info then info[msg.parent].timestampMillis else 0;
            && r.parentDigest == msg.parent && r.parentView == msg.parentView
            && r.epoch == msg.epoch && r.view == msg.view && r.proposer == msg.leader
            && r.parentHash == (if msg.parent in info then info[msg.parent].hash else EMPTY)
            && r.parentNumber == (if msg.parent in info then info[msg.parent].number else 0)
            && r.timestampMillis >= now && r.timestampMillis >= millis
            && (r.timestampMillis == now || r.timestampMillis == millis + 1 || millis == r.timestampMillis == U64_MAX)
            && (r.timestampMillis > millis <==> millis < U64_MAX)
            && 1000 * r.timestamp <= r.timestampMillis < 1000 * r.timestamp + 1000
  {}

  /** What a build asks the engine for in every reachable state, until it has its block. */
  lemma RequestsAreExact(c: Spec, env: Consensus, s: Sys, i: nat)
    requires c.Valid() && Reachable(c, env, s) && i < |s.nodes|
    requires s.nodes[i].task.Requested? || s.nodes[i].task.Asking? || s.nodes[i].task.Resolving?
    ensures var n, job := s.nodes[i], s.nodes[i].task.job;
            && job.request == MakeRequest(n.stores.blockInfo, job.msg, job.now)
            && n.log.handed != [] && n.log.handed[|n.log.handed| - 1] == job.msg
  {
    BuildIsLastHanded(c, env, s, i);
    ReachableOk(c, env, s);
    RequestIsOfJob(c, s.world, s.nodes[i]);
  }

  lemma BuildIsLastHanded(c: Spec, env: Consensus, s: Sys, i: nat)
    requires Reachable(c, env, s) && i < |s.nodes| && IsBuilding(s.nodes[i].task)
    ensures var n := s.nodes[i]; n.log.handed != [] && n.log.handed[|n.log.handed| - 1] == n.task.job.msg
  {
    ReachableBalanced(c, env, s, i);
  }

  lemma RequestIsOfJob(c: Spec, w: World, n: Node)
    requires NodeOk(c, w, n) && (n.task.Requested? || n.task.Asking? || n.task.Resolving?)
    ensures n.task.job.request == MakeRequest(n.stores.blockInfo, n.task.job.msg, n.task.job.now)
  {}

  // ── Granted builds ──

  /** A request describes the engine's block of its parent, and the timestamp rule meets the
      engine's relaxed check, unless the head's seconds do not fit. */
  lemma RequestFollowsHead(c: Spec, w: World, n: Node, job: Job)
    requires c.Valid() && WorldOk(c, w) && NodeOk(c, w, n) && JobOk(n.stores.blockInfo, job)
    requires job.msg.parent in n.stores.blockInfo
    ensures job.request.parentHash == HashOf(c, job.msg.parent) && job.request.parentHash in n.stores.tree
    ensures var head := n.stores.tree[job.request.parentHash];
            && job.request.parentNumber == head.number
            && (AttributesFollow(job.request.timestamp, head) <==> head.timestamp <= MAX_SECONDS)
            && (job.msg.parent != EMPTY ==> head.timestamp <= MAX_SECONDS)
  {
    RecordDescribesBlock(c, w, n, job.msg.parent);
    var head := n.stores.tree[job.request.parentHash];
    assert job.request.timestamp == NextSeconds(job.now, head.timestamp);
    NextSecondsIsMax(job.now, head.timestamp);
    if job.msg.parent != EMPTY {
      assert BuiltOn(c, w, job.msg.parent, w.lineage[job.msg.parent]);
    }
  }

  lemma ReadyAsk(n: Node)
    requires n.task.Asking? && WellFormed(n.stores.tree, n.task.fc)
    ensures Ask(n, Ready).task.Resolving? <==>
            AttributesFollow(n.task.job.request.timestamp, n.stores.tree[n.task.fc.head])
  {}

  /** Under a ready engine, a build on a recorded parent gets its payload id exactly when the
      head's seconds fit in milliseconds; only a genesis can break that. */
  lemma ReadyEngineGrants(c: Spec, s: Sys, i: nat)
    requires c.Valid() && Reachable(c, OnTheChain, s) && i < |s.nodes| && s.nodes[i].task.Asking?
    requires s.nodes[i].task.job.msg.parent in s.nodes[i].stores.blockInfo
    ensures s.nodes[i].task.fc.head in s.nodes[i].stores.tree
    ensures Ask(s.nodes[i], Ready).task.Resolving? <==>
            s.nodes[i].stores.tree[s.nodes[i].task.fc.head].timestamp <= MAX_SECONDS
    ensures s.nodes[i].task.job.msg.parent != EMPTY ==> Ask(s.nodes[i], Ready).task.Resolving?
  {
    ReachableOk(c, OnTheChain, s);
    BuildForkchoiceIsWellFormed(c, s, i);
    RequestFollowsHead(c, s.world, s.nodes[i], s.nodes[i].task.job);
    ReadyAsk(s.nodes[i]);
  }

  /** Exactly when a build on a recorded parent gets its payload id within its five attempts,
      whatever consensus does: the parent extends the digest the tracker stands at when it is
      read, time can be expanded to milliseconds, and the engine is ready at least once. */
  lemma GrantedExactly(c: Spec, w: World, n: Node, moods: seq<ForkchoiceMood>)
    requires c.Valid() && WorldOk(c, w) && NodeOk(c, w, n) && PointerOk(c, w, n)
    requires n.task.Requested? && n.task.job.msg.parent in n.stores.blockInfo && |moods| == 5
    ensures n.task.job.request.parentHash in n.stores.tree
    ensures AskAll(Capture(n), moods) ==
            if && Descends(w.lineage, Pointer(n), n.task.job.msg.parent)
               && n.stores.tree[n.task.job.request.parentHash].timestamp <= MAX_SECONDS
               && Ready in moods
            then n.(task := Resolving(n.task.job))
            else FailBuild(n)
  {
    var asking := Capture(n);
    RequestFollowsHead(c, w, n, n.task.job);
    CaptureExact(c, w, n);
    if WellFormed(n.stores.tree, asking.task.fc)
       && AttributesFollow(n.task.job.request.timestamp, n.stores.tree[n.task.job.request.parentHash]) {
      AskAllOutcome(asking, moods);
    } else {
      AskAllRefused(asking, moods);
    }
  }

  /** The proposal is answered with block `b`, which is imported, recorded and stored. */
  predicate Answered(c: Spec, n: Node, n': Node, msg: Propose, b: Block) {
    var d := c.hash(b);
    && n'.task.Idle?
    && n'.log.answers == n.log.answers + [Answer(|n'.log.handed|, msg.parent, d)]
    && n'.stores.tree == n.stores.tree[d := b]
    && n'.stores.pendingBlocks == n.stores.pendingBlocks[d := c.encode(b)]
    && n'.stores.proposals == n.stores.proposals + [d]
    && n'.stores.blockInfo == n.stores.blockInfo[d :=
         BlockInfo(b.number, d, msg.view, msg.leader, b.timestamp, ToMillis(b.timestamp))]
  }

  predicate Unanswered(n: Node, n': Node) {
    n'.task.Idle? && n'.stores == n.stores && n'.log.answers == n.log.answers
  }

  /** What is left of a build after the retry loop. */
  function FinishRun(c: Spec, n: Node, env: BuildEnv): Node {
    AnswerPropose(c, Store(c, Record(c, Import(c, Resolve(n, env.built), env.import_))))
  }

  lemma FinishGranted(c: Spec, n: Node, env: BuildEnv)
    requires n.task.Resolving? && env.built.Some? && !env.import_.Broken?
    requires var b := env.built.value;
             && b.parentHash in n.stores.tree && FollowsParent(b, n.stores.tree[b.parentHash]) && c.executes(b)
             && b.timestamp == n.task.job.request.timestamp
    ensures Answered(c, n, FinishRun(c, n, env), n.task.job.msg, env.built.value)
  {}

  lemma FinishFailed(c: Spec, n: Node, env: BuildEnv)
    requires n.task.Idle? || (n.task.Resolving? && (env.built.None? || env.import_.Broken?))
    ensures Unanswered(n, FinishRun(c, n, env))
  {}

  /** The conditions under which a proposal handled without interference is answered. */
  ghost predicate Answerable(c: Spec, w: World, n: Node, msg: Propose, env: BuildEnv) {
    && msg.parent in n.stores.blockInfo
    && Descends(w.lineage, Pointer(n), msg.parent)
    && n.stores.blockInfo[msg.parent].timestamp <= MAX_SECONDS
    && Ready in env.moods && env.built.Some? && !env.import_.Broken?
  }

  lemma AnswerableRun(c: Spec, w: World, n: Node, env: BuildEnv)
    requires c.Valid() && WorldOk(c, w) && NodeOk(c, w, n) && PointerOk(c, w, n)
    requires n.task.Requested? && |env.moods| == ATTEMPTS && Answerable(c, w, n, n.task.job.msg, env)
    requires EngineBuilds(c, w, n.stores.tree, n.task.job.request, env.built.value)
    ensures Answered(c, n, FinishRun(c, AskAll(Capture(n), env.moods), env), n.task.job.msg, env.built.value)
  {
    GrantedExactly(c, w, n, env.moods);
    RequestFollowsHead(c, w, n, n.task.job);
    RecordDescribesBlock(c, w, n, n.task.job.msg.parent);
    FinishGranted(c, n.(task := Resolving(n.task.job)), env);
  }

  lemma UnanswerableRun(c: Spec, w: World, n: Node, env: BuildEnv)
    requires c.Valid() && WorldOk(c, w) && NodeOk(c, w, n) && PointerOk(c, w, n)
    requires n.task.Requested? && |env.moods| == ATTEMPTS && !Answerable(c, w, n, n.task.job.msg, env)
    ensures Unanswered(n, FinishRun(c, AskAll(Capture(n), env.moods), env))
  {
    if n.task.job.msg.parent in n.stores.blockInfo {
      GrantedExactly(c, w, n, env.moods);
      RecordDescribesBlock(c, w, n, n.task.job.msg.parent);
      RequestFollowsHead(c, w, n, n.task.job);
    } else {
      AskAllRefused(Capture(n), env.moods);
    }
    FinishFailed(c, AskAll(Capture(n), env.moods), env);
  }

  /** A proposal is answered exactly when its parent is recorded and extends the finality pointer,
      the parent's time fits, and the engine is ready once, resolves and imports. If it is not
      answered no store has changed. */
  lemma ProposalIsAnsweredExactly(c: Spec, env: Consensus, s: Sys, i: nat, msg: Propose, now: U64, build: BuildEnv)
    requires c.Valid() && Reachable(c, env, s) && i < |s.nodes| && s.nodes[i].task.Idle?
    requires |build.moods| == ATTEMPTS
    requires build.built.Some? ==>
               var st := s.nodes[i].stores;
               EngineBuilds(c, s.world, st.tree, MakeRequest(st.blockInfo, msg, now), build.built.value)
    ensures var n, n' := s.nodes[i], ProposeRun(c, s.nodes[i], msg, now, build);
            if Answerable(c, s.world, n, msg, build) then Answered(c, n, n', msg, build.built.value)
            else Unanswered(n, n')
  {
    ReachableOrder(c, env, s);
    var w, n, started := s.world, s.nodes[i], StartPropose(s.nodes[i], msg, now);
    assert OrderOk(c, env, w, n);
    StartProposeStarts(c, w, n, msg, now);
    if Answerable(c, w, n, msg, build) {
      AnswerableRun(c, w, started, build);
    } else {
      UnanswerableRun(c, w, started, build);
    }
  }

  lemma StartProposeStarts(c: Spec, w: World, n: Node, msg: Propose, now: U64)
    requires c.Valid() && WorldOk(c, w) && NodeOk(c, w, n) && PointerOk(c, w, n) && n.task.Idle?
    ensures var n' := StartPropose(n, msg, now);
            && NodeOk(c, w, n') && PointerOk(c, w, n') && n'.stores == n.stores
            && n'.log == n.log.(handed := n.log.handed + [msg])
            && n'.task == Requested(Job(msg, now, MakeRequest(n.stores.blockInfo, msg, now)))
            && Pointer(n') == Pointer(n)
  {
    StepOk(c, w, n, DoStartPropose(msg, now));
    PointerStep(c, w, n, DoStartPropose(msg, now));
  }

  // ── What is built validates ──

  /** A block built by any node passes every check of a node that has its parent: the header and
      timestamp checks of the engine, and the comparison of milliseconds and seconds. */
  lemma BuiltBlockValidates(c: Spec, w: World, tree: Tree, d: Hash, mood: ImportMood)
    requires c.Valid() && WorldOk(c, w) && TreeOk(c, w, tree) && d in w.lineage && d in w.built
    ensures ImportReply(c, tree, w.built[d], mood) ==
            if mood.Broken? then None
            else if w.built[d].parentHash !in tree then Some(Syncing)
            else Some(if mood.Deferred? then Accepted else Valid)
    ensures ToMillis(w.built[d].timestamp) / 1000 == w.built[d].timestamp
    ensures w.built[d].parentHash == HashOf(c, w.lineage[d])
  {
    assert BuiltOn(c, w, d, w.lineage[d]);
    NextSecondsIsMax(0, w.built[d].timestamp);
  }
}
