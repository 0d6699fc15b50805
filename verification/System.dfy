/** The network of validators: any number of nodes stepping in any order, and the block frames
    sent so far. The network loses, repeats and reorders frames; it does not make them up. */
module System {
  import opened Basics
  import opened Ancestry
  import opened Engine
  import opened Glue

  /** What has been built in the run so far, by anyone: the blocks by hash, the consensus parent
      each was proposed on, and the clock its proposer read. */
  datatype World = World(built: Tree, lineage: Parents, clocks: map<Hash, U64>)

  datatype Sys = Sys(nodes: seq<Node>, net: set<seq<Byte>>, world: World)

  datatype Event = Event(at: nat, action: Action)

  // ── The environment ──

  /** What consensus guarantees about the order of things.
      `Anything`: nothing.
      `OneChain`: each finalization reported to a node extends the ones reported to it before.
      `FromTheChain`: moreover, when it is handed out, a proposal's parent extends the finalizations
      reported to its node so far.
      `OnTheChain`: and it extends those reported until its build reads the tracker. */
  datatype Consensus = Anything | OneChain | FromTheChain | OnTheChain

  predicate Builds(n: Node, a: Action) {
    a.DoResolve? && a.built.Some? && n.task.Resolving?
  }

  /** The engine resolves a payload id to an executable block on the requested parent, with the
      requested timestamp. No two blocks of the run share a hash, and none hashes to zero. */
  ghost predicate EngineBuilds(c: Spec, w: World, tree: Tree, request: BuildRequest, b: Block) {
    && b.parentHash == request.parentHash
    && (b.parentHash in tree ==> b.number == tree[b.parentHash].number + 1)
    && b.timestamp == request.timestamp
    && c.executes(b)
    && c.hash(b) != EMPTY
    && (c.hash(b) in w.built ==> w.built[c.hash(b)] == b)
  }

  ghost predicate Extends(w: World, reports: seq<Hash>, d: Hash) {
    forall r | r in reports :: Descends(w.lineage, r, d)
  }

  ghost predicate Ordered(env: Consensus, s: Sys, n: Node, a: Action) {
    && (a.DoReport? && !env.Anything? ==> Extends(s.world, n.log.reports, a.digest))
    && ((env.FromTheChain? || env.OnTheChain?) && a.DoStartPropose? && n.task.Idle? ==>
          Extends(s.world, n.log.reports, a.msg.parent))
    && (env.OnTheChain? && a.DoReport? && n.task.Requested? ==>
          Descends(s.world.lineage, a.digest, n.task.job.msg.parent))
  }

  ghost predicate Enabled(c: Spec, env: Consensus, s: Sys, e: Event) {
    && e.at < |s.nodes|
    && var n := s.nodes[e.at];
       && (Builds(n, e.action) ==>
             EngineBuilds(c, s.world, n.stores.tree, n.task.job.request, e.action.built.value))
       && (e.action.DoReceive? ==> e.action.data in s.net)
       && Ordered(env, s, n, e.action)
  }

  // ── Steps and runs of the system ──

  function Grow(c: Spec, w: World, n: Node, a: Action): World {
    if !Builds(n, a) then w
    else
      var b, job := a.built.value, n.task.job;
      World(w.built[c.hash(b) := b], w.lineage[c.hash(b) := job.msg.parent], w.clocks[c.hash(b) := job.now])
  }

  function Sent(n: Node, a: Action): set<seq<Byte>> {
    if a.DoBroadcast? && Outgoing(n.stores.pendingBlocks, a.digest).Some? then
      {Outgoing(n.stores.pendingBlocks, a.digest).value}
    else
      {}
  }

  function Next(c: Spec, s: Sys, e: Event): Sys
    requires e.at < |s.nodes|
  {
    var n := s.nodes[e.at];
    Sys(s.nodes[e.at := Step(c, n, e.action)], s.net + Sent(n, e.action), Grow(c, s.world, n, e.action))
  }

  ghost predicate Legal(c: Spec, env: Consensus, s: Sys, events: seq<Event>)
    decreases |events|
  {
    events == [] || (Enabled(c, env, s, events[0]) && Legal(c, env, Next(c, s, events[0]), events[1..]))
  }

  ghost function Run(c: Spec, env: Consensus, s: Sys, events: seq<Event>): Sys
    requires Legal(c, env, s, events)
    decreases |events|
  {
    if events == [] then s else Run(c, env, Next(c, s, events[0]), events[1..])
  }

  ghost predicate Initial(c: Spec, s: Sys) {
    && (forall i | 0 <= i < |s.nodes| ::
          s.nodes[i] == InitialNode(c, s.nodes[i].validators, s.nodes[i].channelCapacity))
    && s.net == {}
    && s.world == World(map[c.GenesisHash() := c.genesis], map[], map[])
  }

  ghost predicate Reachable(c: Spec, env: Consensus, s: Sys) {
    exists start: Sys, events: seq<Event> ::
      Initial(c, start) && Legal(c, env, start, events) && Run(c, env, start, events) == s
  }
}
