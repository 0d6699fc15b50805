/** What becomes of every reported finalization: it is on its way or applied, or was dropped at a full
    channel, or skipped. Nothing else happens to it, and nothing else moves the tracker. */
module Reports {
  import opened Basics
  import opened Engine
  import opened Glue
  import opened System
  import opened Runs
  import opened Finality

  // ── Conservation ──

  /** Every report is accounted for, as often as it was made. */
  ghost predicate Accounted(n: Node) {
    multiset(n.log.reports) == multiset(Trail(n)) + multiset(n.log.dropped) + multiset(n.log.skipped)
  }

  lemma AccountedStep(c: Spec, n: Node, a: Action)
    requires Accounted(n)
    ensures Accounted(Step(c, n, a))
  {
    TrailIsExact(c, n, a);
    if !a.DoReport? && Skips(n, a) {
      assert Trail(n) == n.log.pointers + [n.finalizer.digest] + n.channel;
    }
  }

  ghost predicate SysAccounted(s: Sys) {
    forall i | 0 <= i < |s.nodes| :: Accounted(s.nodes[i])
  }

  lemma {:induction false} RunAccounts(c: Spec, env: Consensus, s: Sys, events: seq<Event>)
    requires Legal(c, env, s, events) && SysAccounted(s)
    ensures SysAccounted(Run(c, env, s, events))
    decreases |events|
  {
    if events != [] {
      AccountedStep(c, s.nodes[events[0].at], events[0].action);
      RunAccounts(c, env, Next(c, s, events[0]), events[1..]);
    }
  }

  /** In every reachable state each report is applied, in the finalizer's hands, in the channel,
      dropped or skipped, exactly as often as it was made. */
  lemma ReportsAreAccounted(c: Spec, env: Consensus, s: Sys, i: nat)
    requires Reachable(c, env, s) && i < |s.nodes|
    ensures Accounted(s.nodes[i])
  {
    var start, events :| Initial(c, start) && Legal(c, env, start, events) && Run(c, env, start, events) == s;
    assert SysAccounted(start);
    RunAccounts(c, env, start, events);
  }

  /** Every report to node `i` in the run finds room in the channel. */
  ghost predicate Roomy(c: Spec, env: Consensus, s: Sys, events: seq<Event>, i: nat)
    requires Legal(c, env, s, events) && i < |s.nodes|
    decreases |events|
  {
    events != [] ==>
      && (events[0].at == i && events[0].action.DoReport? ==> |s.nodes[i].channel| < s.nodes[i].channelCapacity)
      && Roomy(c, env, Next(c, s, events[0]), events[1..], i)
  }

  /** Over such a run, with any interleaving, nothing is dropped. */
  lemma {:induction false} RoomyRunDropsNothing(c: Spec, env: Consensus, s: Sys, events: seq<Event>, i: nat)
    requires Legal(c, env, s, events) && i < |s.nodes| && Roomy(c, env, s, events, i)
    ensures |Run(c, env, s, events).nodes| == |s.nodes|
    ensures Run(c, env, s, events).nodes[i].log.dropped == s.nodes[i].log.dropped
    decreases |events|
  {
    if events != [] {
      TrailIsExact(c, s.nodes[events[0].at], events[0].action);
      RoomyRunDropsNothing(c, env, Next(c, s, events[0]), events[1..], i);
    }
  }

  // ── Failed updates ──

  /** No update of node `i` gets through to the engine. */
  predicate NeverUpdates(events: seq<Event>, i: nat) {
    forall k | 0 <= k < |events| && events[k].at == i && events[k].action.DoUpdate? ::
      events[k].action.forkchoice.Unreachable?
  }

  lemma FailedUpdateStands(c: Spec, n: Node, a: Action)
    requires !n.finalizer.Applying? && (a.DoUpdate? ==> a.forkchoice.Unreachable?)
    ensures var n' := Step(c, n, a);
            !n'.finalizer.Applying? && n'.finalized == n.finalized && n'.log.pointers == n.log.pointers
  {
    if !ActsOnPointer(a) {
      OthersLeavePointer(c, n, a);
    }
  }

  /** Then, unless one had before, the tracker stands through the whole run, whatever is reported,
      looked up and found. */
  lemma {:induction false} FailedUpdatesNeverMove(c: Spec, env: Consensus, s: Sys, events: seq<Event>, i: nat)
    requires Legal(c, env, s, events) && i < |s.nodes| && NeverUpdates(events, i) && !s.nodes[i].finalizer.Applying?
    ensures |Run(c, env, s, events).nodes| == |s.nodes|
    ensures var n, n' := s.nodes[i], Run(c, env, s, events).nodes[i];
            n'.finalized == n.finalized && n'.log.pointers == n.log.pointers && !n'.finalizer.Applying?
    decreases |events|
  {
    if events != [] {
      var e := events[0];
      if e.at == i {
        FailedUpdateStands(c, s.nodes[i], e.action);
      }
      FailedUpdatesNeverMove(c, env, Next(c, s, e), events[1..], i);
    }
  }
}
