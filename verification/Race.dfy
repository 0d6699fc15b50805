/** Why handing out parents on the finalized chain is not enough to keep build forkchoices well
    formed: a run in which a finalization arrives between handing out a proposal and reading the
    tracker. */
module Race {
  import opened Basics
  import opened Ancestry
  import opened Engine
  import opened Timestamps
  import opened Validators
  import opened Glue
  import opened System
  import opened Handling
  import opened Agreement
  import opened Lineage
  import opened Finality
  import opened Proposals

  // ── A whole proposal, and a whole finalization, as runs of the system ──

  lemma GrantInSystem(c: Spec, s: Sys, i: nat, msg: Propose, now: U64) returns (s': Sys)
    requires c.Valid() && Reachable(c, FromTheChain, s) && i < |s.nodes| && s.nodes[i].task.Idle?
    requires Grantable(s, s.nodes[i], msg) && Extends(s.world, s.nodes[i].log.reports, msg.parent)
    ensures Reachable(c, FromTheChain, s') && s'.world == s.world && |s'.nodes| == |s.nodes|
    ensures s'.nodes[i] == StartPropose(s.nodes[i], msg, now).(
              task := Resolving(Job(msg, now, MakeRequest(s.nodes[i].stores.blockInfo, msg, now))))
  {
    ReachableOrder(c, FromTheChain, s);
    var n := s.nodes[i];
    assert NodeOk(c, s.world, n) && OrderOk(c, FromTheChain, s.world, n);
    var started := StartPropose(n, msg, now);
    StartProposeStarts(c, s.world, n, msg, now);
    CaptureExact(c, s.world, started);
    RequestFollowsHead(c, s.world, started, started.task.job);
    RecordDescribesBlock(c, s.world, n, msg.parent);
    ReadyAsk(Capture(started));
    s' := StartInSystem(c, FromTheChain, s, i, msg, now, [Ready]);
    assert AskAll(Capture(started), [Ready]) == Ask(AskAll(Capture(started), [Ready][..0]), Ready);
  }

  ghost predicate Grantable(s: Sys, n: Node, msg: Propose) {
    && msg.parent in n.stores.blockInfo && n.stores.blockInfo[msg.parent].timestamp <= MAX_SECONDS
    && Descends(s.world.lineage, Pointer(n), msg.parent)
  }

  lemma FinalizeInSystem(c: Spec, s: Sys, i: nat, d: Hash) returns (s': Sys)
    requires c.Valid() && Reachable(c, FromTheChain, s) && i < |s.nodes|
    requires Extends(s.world, s.nodes[i].log.reports, d)
    ensures Reachable(c, FromTheChain, s') && s'.world == s.world && |s'.nodes| == |s.nodes|
    ensures s'.nodes[i] == FinalizeRun(Report(s.nodes[i], d), Ready)
  {
    s' := StepInSystem(c, FromTheChain, s, i, DoReport(d));
    s' := FinalizerInSystem(c, s', i);
  }

  lemma FinalizerInSystem(c: Spec, s: Sys, i: nat) returns (s': Sys)
    requires Reachable(c, FromTheChain, s) && i < |s.nodes|
    ensures Reachable(c, FromTheChain, s') && s'.world == s.world && |s'.nodes| == |s.nodes|
    ensures s'.nodes[i] == FinalizeRun(s.nodes[i], Ready)
  {
    s' := LookupInSystem(c, FromTheChain, s, i);
    s' := ApplyInSystem(c, FromTheChain, s', i, Ready);
  }

  // ── The run ──

  /** A node between two proposals: genesis is its pointer and nothing was reported to it. */
  predicate Quiescent(n: Node) {
    n.task.Idle? && n.finalizer.Waiting? && n.log.reports == [] && n.log.pointers == [] && n.channel == []
    && n.channelCapacity > 0
  }

  /** A proposal on genesis whose block the engine could build at the given time. */
  ghost predicate OnGenesis(c: Spec, b: Block, now: U64) {
    && b.parentHash == c.GenesisHash() && b.number == 1 && c.executes(b)
    && b.timestamp == NextSeconds(now, c.genesis.timestamp)
    && c.hash(b) != EMPTY && c.hash(b) != c.GenesisHash()
  }

  lemma BuildOnGenesis(c: Spec, s: Sys, i: nat, msg: Propose, now: U64, b: Block) returns (s': Sys)
    requires c.Valid() && Reachable(c, FromTheChain, s) && i < |s.nodes| && Quiescent(s.nodes[i])
    requires msg.parent == EMPTY && c.genesis.timestamp <= MAX_SECONDS
    requires OnGenesis(c, b, now) && c.hash(b) !in s.world.built
    ensures Reachable(c, FromTheChain, s') && |s'.nodes| == |s.nodes| && Quiescent(s'.nodes[i])
    ensures s'.world.built == s.world.built[c.hash(b) := b] && s'.world.lineage == s.world.lineage[c.hash(b) := EMPTY]
    ensures s'.nodes[i].stores.blockInfo.Keys == s.nodes[i].stores.blockInfo.Keys + {c.hash(b)}
  {
    ReachableOk(c, FromTheChain, s);
    var n := s.nodes[i];
    assert NodeOk(c, s.world, n);
    DescendsReflexive(s.world.lineage, EMPTY);
    s' := GrantInSystem(c, s, i, msg, now);
    var request := s'.nodes[i].task.job.request;
    assert request.parentHash == c.GenesisHash() && request.timestamp == b.timestamp;
    s' := FinishOnGenesis(c, s', i, b);
  }

  lemma FinishOnGenesis(c: Spec, s: Sys, i: nat, b: Block) returns (s': Sys)
    requires c.Valid() && Reachable(c, FromTheChain, s) && i < |s.nodes| && s.nodes[i].task.Resolving?
    requires Quiescent(s.nodes[i].(task := Idle)) && s.nodes[i].task.job.msg.parent == EMPTY
    requires EngineBuilds(c, s.world, s.nodes[i].stores.tree, s.nodes[i].task.job.request, b)
    requires b.parentHash in s.nodes[i].stores.tree && FollowsParent(b, s.nodes[i].stores.tree[b.parentHash])
    ensures Reachable(c, FromTheChain, s') && |s'.nodes| == |s.nodes| && Quiescent(s'.nodes[i])
    ensures s'.world.built == s.world.built[c.hash(b) := b] && s'.world.lineage == s.world.lineage[c.hash(b) := EMPTY]
    ensures s'.nodes[i].stores.blockInfo.Keys == s.nodes[i].stores.blockInfo.Keys + {c.hash(b)}
  {
    FinishGranted(c, s.nodes[i], BuildEnv([], Some(b), Immediate));
    FinishLeavesFinalization(c, s.nodes[i], BuildEnv([], Some(b), Immediate));
    s' := FinishInSystem(c, FromTheChain, s, i, Some(b), Immediate);
  }

  lemma FinishLeavesFinalization(c: Spec, n: Node, env: BuildEnv)
    ensures var n' := FinishRun(c, n, env);
            && n'.finalizer == n.finalizer && n'.log.reports == n.log.reports && n'.log.pointers == n.log.pointers
            && n'.channel == n.channel && n'.channelCapacity == n.channelCapacity
  {}

  /** Wherever two different blocks can be built on genesis, there is a run with finalizations along
      one chain and every proposal handed out on a parent that extends them, in which a build on a
      recorded parent asks with a forkchoice state that names no chain: the finalization of the
      sibling arrives after the proposal is handed out. The engine then refuses the build whatever
      its mood. */
  lemma LateFinalizationBreaksBuild(
    c: Spec, validators: ValidatorSet, msg: Propose, a: Block, nowA: U64, b: Block, nowB: U64) returns (s: Sys)
    requires c.Valid() && c.genesis.timestamp <= MAX_SECONDS && msg.parent == EMPTY
    requires OnGenesis(c, a, nowA) && OnGenesis(c, b, nowB) && c.hash(a) != c.hash(b)
    ensures Reachable(c, FromTheChain, s) && |s.nodes| == 1 && s.nodes[0].task.Asking?
    ensures s.nodes[0].task.job.msg.parent in s.nodes[0].stores.blockInfo
    ensures !WellFormed(s.nodes[0].stores.tree, s.nodes[0].task.fc)
    ensures forall mood :: !Ask(s.nodes[0], mood).task.Resolving?
  {
    s := TwoSiblings(c, validators, msg, a, nowA, b, nowB);
    s := HandOutThenFinalize(c, s, msg.(parent := c.hash(a)), c.hash(b));
    s := CaptureOffChain(c, s);
    MalformedIsRefused(s.nodes[0]);
  }

  lemma CaptureOffChain(c: Spec, s: Sys) returns (s': Sys)
    requires c.Valid() && Reachable(c, FromTheChain, s) && |s.nodes| == 1 && s.nodes[0].task.Requested?
    requires s.nodes[0].task.job.msg.parent in s.nodes[0].stores.blockInfo
    requires !Descends(s.world.lineage, Pointer(s.nodes[0]), s.nodes[0].task.job.msg.parent)
    ensures Reachable(c, FromTheChain, s') && |s'.nodes| == 1 && s'.nodes[0] == Capture(s.nodes[0])
    ensures !WellFormed(s.nodes[0].stores.tree, Capture(s.nodes[0]).task.fc)
  {
    ReachableOrder(c, FromTheChain, s);
    assert NodeOk(c, s.world, s.nodes[0]) && OrderOk(c, FromTheChain, s.world, s.nodes[0]);
    CaptureExact(c, s.world, s.nodes[0]);
    s' := FreeStep(c, FromTheChain, s, 0, DoCapture);
  }

  lemma MalformedIsRefused(n: Node)
    requires n.task.Asking? && !WellFormed(n.stores.tree, n.task.fc)
    ensures forall mood :: !Ask(n, mood).task.Resolving?
  {}

  lemma TwoSiblings(
    c: Spec, validators: ValidatorSet, msg: Propose, a: Block, nowA: U64, b: Block, nowB: U64) returns (s: Sys)
    requires c.Valid() && c.genesis.timestamp <= MAX_SECONDS && msg.parent == EMPTY
    requires OnGenesis(c, a, nowA) && OnGenesis(c, b, nowB) && c.hash(a) != c.hash(b)
    ensures Reachable(c, FromTheChain, s) && |s.nodes| == 1 && Quiescent(s.nodes[0])
    ensures {c.hash(a), c.hash(b)} <= s.nodes[0].stores.blockInfo.Keys
    ensures !Descends(s.world.lineage, c.hash(b), c.hash(a))
  {
    s := Sys([InitialNode(c, validators, 1)], {}, World(map[c.GenesisHash() := c.genesis], map[], map[]));
    assert Initial(c, s) && Legal(c, FromTheChain, s, []) && Run(c, FromTheChain, s, []) == s;
    s := BuildOnGenesis(c, s, 0, msg, nowA, a);
    s := BuildOnGenesis(c, s, 0, msg, nowB, b);
    NotAncestors(s.world.lineage, c.hash(a), c.hash(b));
  }

  lemma NotAncestors(lineage: Parents, a: Hash, b: Hash)
    requires a in lineage && lineage[a] == EMPTY && EMPTY !in lineage && b != a && b != EMPTY
    ensures !Descends(lineage, b, a)
  {
    DescendsByOne(lineage, b, a);
    DescendsByOne(lineage, b, EMPTY);
  }

  lemma HandOutThenFinalize(c: Spec, s: Sys, msg: Propose, d: Hash) returns (s': Sys)
    requires c.Valid() && Reachable(c, FromTheChain, s) && |s.nodes| == 1 && Quiescent(s.nodes[0])
    requires msg.parent in s.nodes[0].stores.blockInfo && d in s.nodes[0].stores.blockInfo
    ensures Reachable(c, FromTheChain, s') && s'.world == s.world && |s'.nodes| == 1
    ensures s'.nodes[0].stores == s.nodes[0].stores && Pointer(s'.nodes[0]) == d
    ensures s'.nodes[0].task.Requested? && s'.nodes[0].task.job.msg == msg
  {
    s' := StepInSystem(c, FromTheChain, s, 0, DoStartPropose(msg, 0));
    ReachableOk(c, FromTheChain, s');
    RecordDescribesBlock(c, s'.world, s'.nodes[0], d);
    FinalizerOutcome(c, Take(Report(s'.nodes[0], d)));
    s' := FinalizeInSystem(c, s', 0, d);
  }

  lemma FinalizerOutcome(c: Spec, n: Node)
    requires n.finalizer.Taken? && n.finalizer.digest in n.stores.blockInfo
    requires n.stores.blockInfo[n.finalizer.digest].hash in n.stores.tree
    ensures var n' := SetFinalized(UpdateForkchoice(Lookup(n), Ready));
            n'.log.pointers == n.log.pointers + [n.finalizer.digest] && n'.stores == n.stores && n'.task == n.task
  {}
}
