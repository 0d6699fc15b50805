/** Runs of the system: reachable states are closed under them, and what a node has stored, said
    or answered stays. */
module Runs {
  import opened Engine
  import opened Glue
  import opened System

  // ── Reachable states are closed under steps ──

  lemma {:induction false} RunExtends(c: Spec, env: Consensus, s: Sys, events: seq<Event>, e: Event)
    requires Legal(c, env, s, events) && Enabled(c, env, Run(c, env, s, events), e)
    ensures Legal(c, env, s, events + [e])
    ensures Run(c, env, s, events + [e]) == Next(c, Run(c, env, s, events), e)
    decreases |events|
  {
    if events == [] {
      assert events + [e] == [e] && [e][1..] == [];
    } else {
      assert (events + [e])[1..] == events[1..] + [e];
      RunExtends(c, env, Next(c, s, events[0]), events[1..], e);
    }
  }

  lemma ReachableNext(c: Spec, env: Consensus, s: Sys, e: Event)
    requires Reachable(c, env, s) && Enabled(c, env, s, e)
    ensures Reachable(c, env, Next(c, s, e))
  {
    var start, events :| Initial(c, start) && Legal(c, env, start, events) && Run(c, env, start, events) == s;
    RunExtends(c, env, start, events, e);
  }

  lemma {:induction false} ReachableRun(c: Spec, env: Consensus, s: Sys, events: seq<Event>)
    requires Reachable(c, env, s) && Legal(c, env, s, events)
    ensures Reachable(c, env, Run(c, env, s, events))
    decreases |events|
  {
    if events != [] {
      ReachableNext(c, env, s, events[0]);
      ReachableRun(c, env, Next(c, s, events[0]), events[1..]);
    }
  }

  // ── What stays ──

  predicate StoresStay(st: Stores, st': Stores) {
    && st.blockInfo.Keys <= st'.blockInfo.Keys
    && st.pendingBlocks.Keys <= st'.pendingBlocks.Keys
    && st.receivedBlocks.Keys <= st'.receivedBlocks.Keys
    && st.tree.Keys <= st'.tree.Keys
  }

  predicate LogStays(log: Log, log': Log) {
    log.pointers <= log'.pointers && log.verdicts <= log'.verdicts && log.answers <= log'.answers
  }

  lemma StepKeepsTree(c: Spec, n: Node, a: Action)
    ensures n.stores.tree.Keys <= Step(c, n, a).stores.tree.Keys
  {
    if a.DoValidate? {
      ValidateKeepsTree(c, n, a.mood);
    } else if a.DoImport? {
    } else {
      OthersLeaveTree(c, n, a);
    }
  }

  lemma ValidateKeepsTree(c: Spec, n: Node, mood: ImportMood)
    ensures n.stores.tree.Keys <= Validate(c, n, mood).stores.tree.Keys
  {
    if n.task.Validating? {
      ValidateTree(c, n, mood);
    }
  }

  lemma ValidateTree(c: Spec, n: Node, mood: ImportMood)
    requires n.task.Validating?
    ensures Validate(c, n, mood).stores.tree == TreeAfterValidate(c, n.stores.tree, n.task.bytes, mood)
  {
    match ValidateBlock(c, n.stores.tree, n.task.bytes, mood)
    case ValidBlock(meta) =>
    case InvalidBlock =>
    case ValidationError =>
  }

  lemma OthersLeaveTree(c: Spec, n: Node, a: Action)
    requires !a.DoImport? && !a.DoValidate?
    ensures Step(c, n, a).stores.tree == n.stores.tree
  {}

  lemma StepKeepsMaps(c: Spec, n: Node, a: Action)
    ensures n.stores.blockInfo.Keys <= Step(c, n, a).stores.blockInfo.Keys
    ensures n.stores.pendingBlocks.Keys <= Step(c, n, a).stores.pendingBlocks.Keys
    ensures n.stores.receivedBlocks.Keys <= Step(c, n, a).stores.receivedBlocks.Keys
  {
    match a
    case DoRecord =>
    case DoStore =>
    case DoNote =>
    case DoReceive(data) =>
    case DoValidate(mood) =>
    case _ =>
  }

  lemma StepKeepsStores(c: Spec, n: Node, a: Action)
    ensures StoresStay(n.stores, Step(c, n, a).stores)
  {
    StepKeepsTree(c, n, a);
    StepKeepsMaps(c, n, a);
  }

  lemma StepKeepsLog(c: Spec, n: Node, a: Action)
    ensures LogStays(n.log, Step(c, n, a).log)
  {}

  /** No run takes a block, a record, a verdict, an answer or a finalization back, at any node, or a
      frame out of the network. */
  lemma {:induction false} RunKeeps(c: Spec, env: Consensus, s: Sys, events: seq<Event>, i: nat)
    requires Legal(c, env, s, events) && i < |s.nodes|
    ensures |Run(c, env, s, events).nodes| == |s.nodes|
    ensures var n, n' := s.nodes[i], Run(c, env, s, events).nodes[i];
            && StoresStay(n.stores, n'.stores) && LogStays(n.log, n'.log)
            && n'.validators == n.validators
    ensures s.net <= Run(c, env, s, events).net
    decreases |events|
  {
    if events != [] {
      var e := events[0];
      StepKeepsStores(c, s.nodes[e.at], e.action);
      StepKeepsLog(c, s.nodes[e.at], e.action);
      StepKeepsValidators(c, s.nodes[e.at], e.action);
      RunKeeps(c, env, Next(c, s, e), events[1..], i);
    }
  }

  lemma StepKeepsValidators(c: Spec, n: Node, a: Action)
    ensures Step(c, n, a).validators == n.validators
  {}
}
