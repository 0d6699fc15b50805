/** The counters that no log mirrors, against what the environment did. */
module Counters {
  import opened Basics
  import opened Engine
  import opened Glue
  import opened System
  import opened Votes

  /** A message from the network that counts: one that holds a digest. */
  predicate IsDelivery(a: Action) {
    a.DoReceive? && |a.data| >= 32
  }

  /** A validation that ends in an error, rather than a verdict of the engine: bytes that do not
      decode, an engine that fails, a parent it does not have, or a block it sets aside. */
  predicate IsFault(c: Spec, n: Node, a: Action) {
    && a.DoValidate? && n.task.Validating?
    && match c.decode(n.task.bytes)
       case None => true
       case Some(b) =>
         || a.mood.Broken? || b.parentHash !in n.stores.tree
         || (a.mood.Deferred? && c.executes(b)
             && b.number == n.stores.tree[b.parentHash].number + 1
             && b.timestamp >= n.stores.tree[b.parentHash].timestamp)
  }

  /** The deliveries and the faults at node `i` in the course of a run. */
  function Deliveries(events: seq<Event>, i: nat): nat {
    if events == [] then 0
    else (if events[0].at == i && IsDelivery(events[0].action) then 1 else 0) + Deliveries(events[1..], i)
  }

  ghost function Faults(c: Spec, env: Consensus, s: Sys, events: seq<Event>, i: nat): nat
    requires Legal(c, env, s, events) && i < |s.nodes|
    decreases |events|
  {
    if events == [] then 0
    else
      (if events[0].at == i && IsFault(c, s.nodes[i], events[0].action) then 1 else 0)
      + Faults(c, env, Next(c, s, events[0]), events[1..], i)
  }

  lemma ReceivedStep(c: Spec, n: Node, a: Action)
    ensures Step(c, n, a).metrics.blocksReceived == n.metrics.blocksReceived + (if IsDelivery(a) then 1 else 0)
  {
    if a.DoReceive? {
      ReceiveIsExact(c, n, a.data);
    }
  }

  /** Errors not yet explained by a failed build. */
  function Unexplained(n: Node): int {
    n.metrics.errors - n.log.failedBuilds
  }

  lemma ErrorsStep(c: Spec, n: Node, a: Action)
    ensures Unexplained(Step(c, n, a)) == Unexplained(n) + (if IsFault(c, n, a) then 1 else 0)
  {
    if a.DoValidate? {
      ValidationErrors(c, n, a.mood);
    } else {
      OthersExplainErrors(c, n, a);
    }
  }

  lemma ValidationErrors(c: Spec, n: Node, mood: ImportMood)
    ensures Unexplained(Validate(c, n, mood)) == Unexplained(n) + (if IsFault(c, n, DoValidate(mood)) then 1 else 0)
  {
    if n.task.Validating? {
      match ValidateBlock(c, n.stores.tree, n.task.bytes, mood)
      case ValidBlock(meta) =>
      case InvalidBlock =>
      case ValidationError =>
    }
  }

  lemma OthersExplainErrors(c: Spec, n: Node, a: Action)
    requires !a.DoValidate?
    ensures Unexplained(Step(c, n, a)) == Unexplained(n)
  {
    match a
    case DoAsk(mood) =>
    case DoResolve(built) =>
    case DoImport(mood) =>
    case _ =>
  }

  /** Over every run, a node counts one block received for each delivery, and one error for each
      failed build and each fault, and no more. */
  lemma {:induction false} CountersAreExact(c: Spec, env: Consensus, s: Sys, events: seq<Event>, i: nat)
    requires Legal(c, env, s, events) && i < |s.nodes|
    ensures |Run(c, env, s, events).nodes| == |s.nodes|
    ensures var n, n' := s.nodes[i], Run(c, env, s, events).nodes[i];
            && n'.metrics.blocksReceived == n.metrics.blocksReceived + Deliveries(events, i)
            && Unexplained(n') == Unexplained(n) + Faults(c, env, s, events, i)
    decreases |events|
  {
    if events != [] {
      ReceivedStep(c, s.nodes[events[0].at], events[0].action);
      ErrorsStep(c, s.nodes[events[0].at], events[0].action);
      CountersAreExact(c, env, Next(c, s, events[0]), events[1..], i);
    }
  }
}
