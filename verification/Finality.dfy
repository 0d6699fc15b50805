/** The finality pointer of a node, and the forkchoice its builds are made on. */
module Finality {
  import opened Basics
  import opened Ancestry
  import opened Engine
  import opened Glue
  import opened System
  import opened Runs
  import opened Agreement
  import opened Lineage

  // ── Subsequences ──

  lemma {:induction false} SubsequenceOfLonger<T>(part: seq<T>, whole: seq<T>, x: T)
    requires Subsequence(part, whole)
    ensures Subsequence(part, whole + [x])
    ensures Subsequence(part + [x], whole + [x])
    ensures part != [] ==> Subsequence(part[..|part| - 1], whole)
  {
    assert (whole + [x])[..|whole|] == whole && (part + [x])[..|part|] == part;
    if part != [] {
      var last := |whole| - 1;
      var shorter := if part[|part| - 1] == whole[last] then part[..|part| - 1] else part;
      assert whole[..last] + [whole[last]] == whole;
      SubsequenceOfLonger(shorter, whole[..last], whole[last]);
      SubsequenceOfLonger(part[..|part| - 1], whole[..last], whole[last]);
    }
  }

  /** Leaving one more element out. */
  lemma {:induction false} SubsequenceWithout<T>(left: seq<T>, x: T, right: seq<T>, whole: seq<T>)
    requires Subsequence(left + [x] + right, whole)
    ensures Subsequence(left + right, whole)
    decreases |whole|
  {
    var part := left + [x] + right;
    if right == [] {
      SubsequenceOfLonger(part, whole, x);
      assert part[..|part| - 1] == left + right;
    } else {
      var shorter := whole[..|whole| - 1];
      assert part[|part| - 1] == right[|right| - 1] == (left + right)[|left + right| - 1];
      if part[|part| - 1] == whole[|whole| - 1] {
        assert part[..|part| - 1] == left + [x] + right[..|right| - 1];
        SubsequenceWithout(left, x, right[..|right| - 1], shorter);
        assert (left + right)[..|left + right| - 1] == left + right[..|right| - 1];
      } else {
        SubsequenceWithout(left, x, right, shorter);
      }
    }
  }

  /** Every pair in a subsequence stands in the same order in the whole. */
  lemma {:induction false} SubsequenceKeepsOrder<T>(part: seq<T>, whole: seq<T>, i: nat, j: nat)
    returns (i': nat, j': nat)
    requires Subsequence(part, whole) && i < j < |part|
    ensures i' < j' < |whole| && part[i] == whole[i'] && part[j] == whole[j']
    decreases |whole|
  {
    var last := |whole| - 1;
    if part[|part| - 1] != whole[last] {
      i', j' := SubsequenceKeepsOrder(part, whole[..last], i, j);
    } else if j < |part| - 1 {
      i', j' := SubsequenceKeepsOrder(part[..|part| - 1], whole[..last], i, j);
    } else {
      i' := SubsequenceFinds(part[..|part| - 1], whole[..last], i);
      j' := last;
    }
  }

  lemma {:induction false} SubsequenceFinds<T>(part: seq<T>, whole: seq<T>, i: nat) returns (i': nat)
    requires Subsequence(part, whole) && i < |part|
    ensures i' < |whole| && part[i] == whole[i']
    decreases |whole|
  {
    var last := |whole| - 1;
    if part[|part| - 1] != whole[last] {
      i' := SubsequenceFinds(part, whole[..last], i);
    } else if i == |part| - 1 {
      i' := last;
    } else {
      i' := SubsequenceFinds(part[..|part| - 1], whole[..last], i);
    }
  }

  // ── The finality pointer ──

  function InFlight(f: FinalizerTask): seq<Hash> {
    if f.Waiting? then [] else [f.digest]
  }

  /** Digests on their way from the reporter to the tracker, behind those already there. */
  function Trail(n: Node): seq<Hash> {
    n.log.pointers + InFlight(n.finalizer) + n.channel
  }

  /** The digest the tracker stands at. */
  function Pointer(n: Node): Hash {
    if n.log.pointers == [] then EMPTY else n.log.pointers[|n.log.pointers| - 1]
  }

  predicate ActsOnPointer(a: Action) {
    a.DoReport? || a.DoTake? || a.DoLookup? || a.DoUpdate? || a.DoSetFinalized?
  }

  /** The actor and the receiver leave finalization alone. */
  lemma OthersLeavePointer(c: Spec, n: Node, a: Action)
    requires !ActsOnPointer(a)
    ensures var n' := Step(c, n, a);
            && n'.finalizer == n.finalizer && n'.finalized == n.finalized && n'.channel == n.channel
            && n'.log.pointers == n.log.pointers && n'.log.reports == n.log.reports
            && n'.log.dropped == n.log.dropped && n'.log.skipped == n.log.skipped
  {}

  /** A report is enqueued at the end exactly if there is room, and otherwise dropped; it is counted
      either way, and nothing else changes. */
  lemma ReportIsExact(c: Spec, n: Node, digest: Hash)
    ensures var n' := Step(c, n, DoReport(digest));
            && n'.channel == (if |n.channel| < n.channelCapacity then n.channel + [digest] else n.channel)
            && n'.metrics == n.metrics.(blocksFinalized := n.metrics.blocksFinalized + 1)
            && n'.stores == n.stores && n'.task == n.task && n'.finalizer == n.finalizer && n'.finalized == n.finalized
    ensures Trail(Step(c, n, DoReport(digest))) == Trail(n) + [digest] <==> |n.channel| < n.channelCapacity
  {
    var n' := Step(c, n, DoReport(digest));
    if |n.channel| < n.channelCapacity {
      assert Trail(n') == Trail(n) + [digest];
    } else {
      assert Trail(n') == Trail(n);
    }
  }

  /** The digests of the trail, of what was dropped and of what was skipped, after any step. */
  lemma TrailIsExact(c: Spec, n: Node, a: Action)
    ensures var n', full := Step(c, n, a), |n.channel| >= n.channelCapacity;
            if a.DoReport? then
              && Trail(n') == (if full then Trail(n) else Trail(n) + [a.digest])
              && n'.log.dropped == (if full then n.log.dropped + [a.digest] else n.log.dropped)
              && n'.log.skipped == n.log.skipped && n'.log.reports == n.log.reports + [a.digest]
            else
              && n'.log.dropped == n.log.dropped && n'.log.reports == n.log.reports
              && (if Skips(n, a) then
                    Trail(n') == n.log.pointers + n.channel && n'.log.skipped == n.log.skipped + [n.finalizer.digest]
                  else
                    Trail(n') == Trail(n) && n'.log.skipped == n.log.skipped)
  {
    if !ActsOnPointer(a) {
      OthersLeavePointer(c, n, a);
    } else if a.DoReport? {
      ReportIsExact(c, n, a.digest);
      assert |n.channel| >= n.channelCapacity ==> Trail(Step(c, n, a)) == Trail(n);
    } else {
      FinalizerTrail(c, n, a);
    }
  }

  lemma FinalizerTrail(c: Spec, n: Node, a: Action)
    requires a.DoTake? || a.DoLookup? || a.DoUpdate? || a.DoSetFinalized?
    ensures var n' := Step(c, n, a);
            && n'.log.dropped == n.log.dropped && n'.log.reports == n.log.reports
            && (if Skips(n, a) then
                  Trail(n') == n.log.pointers + n.channel && n'.log.skipped == n.log.skipped + [n.finalizer.digest]
                else
                  Trail(n') == Trail(n) && n'.log.skipped == n.log.skipped)
  {
    var n' := Step(c, n, a);
    if Skips(n, a) {
      assert Trail(n') == n.log.pointers + n.channel;
    } else {
      assert Trail(n') == Trail(n);
    }
  }

  /** The finalizer gives its digest up: it finds no record, or the engine refuses the update. */
  predicate Skips(n: Node, a: Action) {
    || (a.DoLookup? && n.finalizer.Taken? && n.finalizer.digest !in n.stores.blockInfo)
    || (a.DoUpdate? && n.finalizer.Updating? && (a.forkchoice.Unreachable? || n.finalizer.hash !in n.stores.tree))
  }

  /** Drops, misses and failures only ever leave digests out. */
  lemma TrailStaysInReports(c: Spec, n: Node, a: Action)
    requires Subsequence(Trail(n), n.log.reports)
    ensures Subsequence(Trail(Step(c, n, a)), Step(c, n, a).log.reports)
  {
    TrailIsExact(c, n, a);
    if a.DoReport? {
      SubsequenceOfLonger(Trail(n), n.log.reports, a.digest);
    } else if Skips(n, a) {
      SubsequenceWithout(n.log.pointers, n.finalizer.digest, n.channel, n.log.reports);
    }
  }

  ghost predicate PointsTo(c: Spec, w: World, f: Finalized, d: Hash) {
    Known(w, d) && HashOf(c, d) in w.built && f == Finalized(HashOf(c, d), w.built[HashOf(c, d)].number)
  }

  ghost predicate PointerOk(c: Spec, w: World, n: Node) {
    && Subsequence(Trail(n), n.log.reports)
    && PointsTo(c, w, n.finalized, Pointer(n))
    && FinalizerOk(c, w, n.stores.tree, n.finalizer)
    && AskOk(w, n.task)
  }

  /** What the finalizer found is the block of its digest, and the node's own engine has it. */
  ghost predicate FinalizerOk(c: Spec, w: World, tree: Tree, f: FinalizerTask) {
    f.Updating? || f.Applying? ==> PointsTo(c, w, Finalized(f.hash, f.number), f.digest) && f.hash in tree
  }

  /** A build asks with the block the tracker stood at when it was read. */
  ghost predicate AskOk(w: World, t: Task) {
    t.Asking? ==> t.fc.safe == t.fc.finalized && t.fc.finalized in w.built
  }

  lemma FinalizerStep(c: Spec, w: World, n: Node, a: Action)
    requires ActsOnPointer(a)
    requires PointsTo(c, w, n.finalized, Pointer(n)) && FinalizerOk(c, w, n.stores.tree, n.finalizer)
    requires forall d | d in n.stores.blockInfo :: RecordPoints(c, w, n.stores, d)
    ensures var n' := Step(c, n, a);
            PointsTo(c, w, n'.finalized, Pointer(n')) && FinalizerOk(c, w, n'.stores.tree, n'.finalizer)
  {
    match a
    case DoLookup =>
      assert n.finalizer.Taken? && n.finalizer.digest in n.stores.blockInfo ==>
               RecordPoints(c, w, n.stores, n.finalizer.digest);
    case DoSetFinalized =>
    case _ =>
  }

  ghost predicate RecordPoints(c: Spec, w: World, st: Stores, d: Hash)
    requires d in st.blockInfo
  {
    && PointsTo(c, w, Finalized(st.blockInfo[d].hash, st.blockInfo[d].number), d)
    && st.blockInfo[d].hash in st.tree
  }

  lemma RecordsPoint(c: Spec, w: World, n: Node)
    requires c.Valid() && WorldOk(c, w) && NodeOk(c, w, n)
    ensures forall d | d in n.stores.blockInfo :: RecordPoints(c, w, n.stores, d)
  {
    forall d | d in n.stores.blockInfo
      ensures RecordPoints(c, w, n.stores, d)
    {
      RecordDescribesBlock(c, w, n, d);
    }
  }

  lemma PointerStep(c: Spec, w: World, n: Node, a: Action)
    requires c.Valid() && WorldOk(c, w) && NodeOk(c, w, n) && PointerOk(c, w, n)
    ensures PointerOk(c, w, Step(c, n, a))
  {
    TrailStaysInReports(c, n, a);
    TrackerStep(c, w, n, a);
    AskStep(c, w, n, a);
  }

  /** The tracker, and what the finalizer is about to put there, always name built blocks. */
  lemma TrackerStep(c: Spec, w: World, n: Node, a: Action)
    requires c.Valid() && WorldOk(c, w) && NodeOk(c, w, n)
    requires PointsTo(c, w, n.finalized, Pointer(n)) && FinalizerOk(c, w, n.stores.tree, n.finalizer)
    ensures var n' := Step(c, n, a);
            PointsTo(c, w, n'.finalized, Pointer(n')) && FinalizerOk(c, w, n'.stores.tree, n'.finalizer)
  {
    if !ActsOnPointer(a) {
      OthersLeavePointer(c, n, a);
      StepKeepsStores(c, n, a);
    } else {
      RecordsPoint(c, w, n);
      FinalizerStep(c, w, n, a);
    }
  }

  /** How a proposal comes to stand where it is asking, or about to. */
  lemma BuildOrigin(c: Spec, n: Node, a: Action)
    ensures var n' := Step(c, n, a);
            && (n'.task.Requested? && n'.task != n.task ==>
                  a.DoStartPropose? && n.task.Idle? && n'.task.job.msg == a.msg)
            && (n'.task.Asking? && n'.task != n.task && !a.DoCapture? ==>
                  a.DoAsk? && n.task.Asking? && n'.task.job == n.task.job && n'.task.fc == n.task.fc)
            && (n'.task.Asking? ==> n'.stores.tree == n.stores.tree && n'.stores.blockInfo == n.stores.blockInfo)
  {
    match a
    case DoStartPropose(msg, now) =>
    case DoCapture =>
    case DoAsk(mood) =>
    case _ =>
  }

  lemma AskStep(c: Spec, w: World, n: Node, a: Action)
    requires PointsTo(c, w, n.finalized, Pointer(n)) && AskOk(w, n.task)
    ensures AskOk(w, Step(c, n, a).task)
  {
    if !a.DoCapture? {
      BuildOrigin(c, n, a);
    }
  }

  // ── The order consensus guarantees ──

  ghost predicate OnOneChain(w: World, reports: seq<Hash>) {
    forall j, k | 0 <= j < k < |reports| :: Descends(w.lineage, reports[j], reports[k])
  }

  /** A proposal that has not captured the tracker yet extends every report; one that has, asks
      with a forkchoice state that names a chain. */
  ghost predicate HandoutOk(w: World, n: Node) {
    match n.task
    case Requested(job) => Extends(w, n.log.reports, job.msg.parent)
    case Asking(job, fc, _) => job.msg.parent in n.stores.blockInfo ==> WellFormed(n.stores.tree, fc)
    case _ => true
  }

  ghost predicate OrderOk(c: Spec, env: Consensus, w: World, n: Node) {
    && PointerOk(c, w, n)
    && (!env.Anything? ==> OnOneChain(w, n.log.reports))
    && (env.OnTheChain? ==> HandoutOk(w, n))
  }

  lemma GrownKeepsOrder(c: Spec, env: Consensus, w: World, w': World, n: Node)
    requires Grown(w, w') && OrderOk(c, env, w, n)
    ensures OrderOk(c, env, w', n)
  {
    forall a, d | Descends(w.lineage, a, d)
      ensures Descends(w'.lineage, a, d)
    {
      DescendsMonotone(w.lineage, w'.lineage, a, d);
    }
  }

  lemma DescendsByOne(parents: Parents, a: Hash, d: Hash)
    ensures Descends(parents, a, d) <==> a == d || (d in parents && Descends(parents, a, parents[d]))
  {
    if Descends(parents, a, d) {
      var k: nat :| Up(parents, d, k) == Some(a);
      assert k > 0 ==> Up(parents, parents[d], k - 1) == Some(a);
    }
    if d in parents && Descends(parents, a, parents[d]) {
      var k: nat :| Up(parents, parents[d], k) == Some(a);
      assert Up(parents, d, k + 1) == Some(a);
    }
    assert a == d ==> Up(parents, d, 0) == Some(a);
  }

  /** In a node's tree, the engine's walk down finds exactly the consensus ancestors. */
  lemma {:induction false} WalkFindsAncestors(c: Spec, w: World, tree: Tree, a: Hash, d: Hash)
    requires c.Valid() && WorldOk(c, w) && TreeOk(c, w, tree)
    requires Known(w, a) && Known(w, d) && HashOf(c, d) in tree
    ensures OnChain(tree, HashOf(c, a), HashOf(c, d), tree[HashOf(c, d)].number) <==> Descends(w.lineage, a, d)
    decreases tree[HashOf(c, d)].number
  {
    HashOfInjective(c, w, a, d);
    DescendsByOne(w.lineage, a, d);
    if d in w.lineage {
      assert BuiltOn(c, w, d, w.lineage[d]) && Rooted(c, tree, d);
      WalkFindsAncestors(c, w, tree, a, w.lineage[d]);
    }
  }

  /** The forkchoice state the build closure makes names a chain exactly when the parent extends
      the digest the tracker stands at when it is read. This is so whatever consensus does. */
  lemma CaptureExact(c: Spec, w: World, n: Node)
    requires c.Valid() && WorldOk(c, w) && NodeOk(c, w, n) && PointerOk(c, w, n)
    requires n.task.Requested? && n.task.job.msg.parent in n.stores.blockInfo
    ensures WellFormed(n.stores.tree, Capture(n).task.fc) <==>
            Descends(w.lineage, Pointer(n), n.task.job.msg.parent)
  {
    var parent := n.task.job.msg.parent;
    RecordDescribesBlock(c, w, n, parent);
    WalkFindsAncestors(c, w, n.stores.tree, Pointer(n), parent);
  }

  lemma PointerIsReported(c: Spec, w: World, n: Node)
    requires PointerOk(c, w, n)
    ensures Pointer(n) == EMPTY || Pointer(n) in n.log.reports
  {
    if n.log.pointers != [] {
      var last := |n.log.pointers| - 1;
      assert Trail(n)[last] == Pointer(n);
      var i := SubsequenceFinds(Trail(n), n.log.reports, last);
    }
  }

  /** Everything built descends from genesis. */
  lemma GenesisIsOldest(c: Spec, w: World, d: Hash)
    requires c.Valid() && WorldOk(c, w) && Known(w, d)
    ensures Descends(w.lineage, EMPTY, d)
  {
    NumbersAreDepths(c, w, d, 0);
    NumbersAreDepths(c, w, d, w.built[HashOf(c, d)].number);
  }

  lemma CaptureKeepsHandout(c: Spec, w: World, n: Node)
    requires c.Valid() && WorldOk(c, w) && NodeOk(c, w, n) && PointerOk(c, w, n)
    requires n.task.Requested? && HandoutOk(w, n)
    ensures HandoutOk(w, Capture(n))
  {
    var parent := n.task.job.msg.parent;
    if parent in n.stores.blockInfo {
      PointerIsReported(c, w, n);
      RecordDescribesBlock(c, w, n, parent);
      GenesisIsOldest(c, w, parent);
      CaptureExact(c, w, n);
    }
  }

  lemma ReportsGrow(c: Spec, n: Node, a: Action)
    ensures Step(c, n, a).log.reports == if a.DoReport? then n.log.reports + [a.digest] else n.log.reports
  {}

  lemma HandoutStep(c: Spec, s: Sys, n: Node, a: Action)
    requires c.Valid() && WorldOk(c, s.world) && NodeOk(c, s.world, n) && PointerOk(c, s.world, n)
    requires HandoutOk(s.world, n) && Ordered(OnTheChain, s, n, a)
    ensures HandoutOk(s.world, Step(c, n, a))
  {
    if a.DoCapture? {
      if n.task.Requested? {
        CaptureKeepsHandout(c, s.world, n);
      }
    } else {
      BuildOrigin(c, n, a);
      ReportsGrow(c, n, a);
    }
  }

  lemma ReportStep(c: Spec, env: Consensus, s: Sys, n: Node, a: Action)
    requires OnOneChain(s.world, n.log.reports) && Ordered(env, s, n, a) && !env.Anything?
    ensures OnOneChain(s.world, Step(c, n, a).log.reports)
  {
    ReportsGrow(c, n, a);
  }

  lemma OrderStep(c: Spec, env: Consensus, s: Sys, n: Node, a: Action)
    requires c.Valid() && WorldOk(c, s.world) && NodeOk(c, s.world, n)
    requires OrderOk(c, env, s.world, n) && Ordered(env, s, n, a)
    ensures OrderOk(c, env, s.world, Step(c, n, a))
  {
    PointerStep(c, s.world, n, a);
    if !env.Anything? {
      ReportStep(c, env, s, n, a);
    }
    if env.OnTheChain? {
      HandoutStep(c, s, n, a);
    }
  }

  ghost predicate SysOrderOk(c: Spec, env: Consensus, s: Sys) {
    forall i | 0 <= i < |s.nodes| :: OrderOk(c, env, s.world, s.nodes[i])
  }

  lemma NextKeepsOrder(c: Spec, env: Consensus, s: Sys, e: Event)
    requires c.Valid() && SysOk(c, s) && SysOrderOk(c, env, s) && Enabled(c, env, s, e)
    ensures SysOrderOk(c, env, Next(c, s, e))
  {
    var s' := Next(c, s, e);
    NextOk(c, env, s, e);
    OrderStep(c, env, s, s.nodes[e.at], e.action);
    forall i | 0 <= i < |s'.nodes|
      ensures OrderOk(c, env, s'.world, s'.nodes[i])
    {
      GrownKeepsOrder(c, env, s.world, s'.world, s'.nodes[i]);
    }
  }

  lemma {:induction false} RunKeepsOrder(c: Spec, env: Consensus, s: Sys, events: seq<Event>)
    requires c.Valid() && SysOk(c, s) && Legal(c, env, s, events) && SysOrderOk(c, env, s)
    ensures SysOrderOk(c, env, Run(c, env, s, events))
    decreases |events|
  {
    if events != [] {
      NextOk(c, env, s, events[0]);
      NextKeepsOrder(c, env, s, events[0]);
      RunKeepsOrder(c, env, Next(c, s, events[0]), events[1..]);
    }
  }

  lemma InitialOrder(c: Spec, env: Consensus, s: Sys)
    requires c.Valid() && Initial(c, s)
    ensures SysOrderOk(c, env, s)
  {}

  lemma ReachableOrder(c: Spec, env: Consensus, s: Sys)
    requires c.Valid() && Reachable(c, env, s)
    ensures SysOk(c, s) && SysOrderOk(c, env, s)
  {
    ReachableOk(c, env, s);
    var start, events :| Initial(c, start) && Legal(c, env, start, events) && Run(c, env, start, events) == s;
    InitialOk(c, start);
    InitialOrder(c, env, start);
    RunKeepsOrder(c, env, start, events);
  }

  // ── Main results ──

  /** In every reachable state where a build on a recorded parent is about to read the tracker. */
  lemma ReadingIsExact(c: Spec, env: Consensus, s: Sys, i: nat)
    requires c.Valid() && Reachable(c, env, s) && i < |s.nodes| && s.nodes[i].task.Requested?
    requires s.nodes[i].task.job.msg.parent in s.nodes[i].stores.blockInfo
    ensures WellFormed(s.nodes[i].stores.tree, Capture(s.nodes[i]).task.fc) <==>
            Descends(s.world.lineage, Pointer(s.nodes[i]), s.nodes[i].task.job.msg.parent)
  {
    ReachableOrder(c, env, s);
    assert OrderOk(c, env, s.world, s.nodes[i]);
    CaptureExact(c, s.world, s.nodes[i]);
  }

  /** Whatever consensus does, the digests the tracker was moved to are a subsequence of the
      reported ones, and the tracker holds the block of the last. */
  lemma PointersAreReports(c: Spec, env: Consensus, s: Sys, i: nat)
    requires c.Valid() && Reachable(c, env, s) && i < |s.nodes|
    ensures var n := s.nodes[i];
            && Subsequence(n.log.pointers, n.log.reports)
            && PointsTo(c, s.world, n.finalized, Pointer(n))
  {
    ReachableOrder(c, env, s);
    var n := s.nodes[i];
    assert Trail(n) == n.log.pointers + (InFlight(n.finalizer) + n.channel);
    DropRest(n.log.pointers, InFlight(n.finalizer) + n.channel, n.log.reports);
  }

  lemma {:induction false} DropRest<T>(left: seq<T>, rest: seq<T>, whole: seq<T>)
    requires Subsequence(left + rest, whole)
    ensures Subsequence(left, whole)
    decreases |rest|
  {
    if rest == [] {
      assert left + rest == left;
    } else {
      assert left + rest == left + [rest[0]] + rest[1..];
      SubsequenceWithout(left, rest[0], rest[1..], whole);
      DropRest(left, rest[1..], whole);
    }
  }

  /** With finalizations reported along one chain, every digest the tracker was ever moved to is an
      ancestor of every later one. */
  lemma PointersAscend(c: Spec, env: Consensus, s: Sys, i: nat, j: nat, k: nat)
    requires c.Valid() && Reachable(c, env, s) && !env.Anything? && i < |s.nodes|
    requires j < k < |s.nodes[i].log.pointers|
    ensures Descends(s.world.lineage, s.nodes[i].log.pointers[j], s.nodes[i].log.pointers[k])
  {
    ReachableOrder(c, env, s);
    var n := s.nodes[i];
    assert Trail(n)[j] == n.log.pointers[j] && Trail(n)[k] == n.log.pointers[k];
    var j', k' := SubsequenceKeepsOrder(Trail(n), n.log.reports, j, k);
  }

  /** The tracker moves only to a digest that extends the one it stands at. */
  lemma PointerAscends(c: Spec, w: World, n: Node)
    requires c.Valid() && WorldOk(c, w) && PointerOk(c, w, n) && OnOneChain(w, n.log.reports)
    requires n.finalizer.Applying?
    ensures Descends(w.lineage, Pointer(n), n.finalizer.digest)
  {
    var d := n.finalizer.digest;
    if n.log.pointers == [] {
      GenesisIsOldest(c, w, d);
    } else {
      var last := |n.log.pointers| - 1;
      assert Trail(n)[last] == Pointer(n) && Trail(n)[last + 1] == d;
      var j, k := SubsequenceKeepsOrder(Trail(n), n.log.reports, last, last + 1);
    }
  }

  ghost predicate AtOrBelow(c: Spec, w: World, f: Finalized, f': Finalized) {
    Descends(ParentsOf(c, w.built), f.hash, f'.hash) && f.number <= f'.number
  }

  lemma DescendantPointsBelow(c: Spec, w: World, a: Hash, d: Hash, f: Finalized, f': Finalized)
    requires c.Valid() && WorldOk(c, w) && PointsTo(c, w, f, a) && PointsTo(c, w, f', d)
    requires Descends(w.lineage, a, d)
    ensures AtOrBelow(c, w, f, f')
  {
    var k: nat :| Up(w.lineage, d, k) == Some(a);
    NumbersAreDepths(c, w, d, k);
    AncestryCoincides(c, w, a, d);
  }

  lemma TrackerMovesOnlyBySet(c: Spec, n: Node, a: Action)
    ensures var n' := Step(c, n, a);
            n'.finalized == n.finalized
            || (n.finalizer.Applying? && n'.finalized == Finalized(n.finalizer.hash, n.finalizer.number))
  {}

  /** The finality pointer never goes back: with finalizations reported along one chain, under
      every interleaving, a step leaves the tracker where it is or moves it to a descendant, whose
      number is at least as large. */
  lemma FinalityNeverGoesBack(c: Spec, env: Consensus, s: Sys, e: Event, i: nat)
    requires c.Valid() && Reachable(c, env, s) && !env.Anything?
    requires Enabled(c, env, s, e) && i < |s.nodes|
    ensures AtOrBelow(c, s.world, s.nodes[i].finalized, Next(c, s, e).nodes[i].finalized)
  {
    ReachableOrder(c, env, s);
    var n, w := s.nodes[i], s.world;
    assert OrderOk(c, env, w, n);
    TrackerMovesOnlyBySet(c, s.nodes[e.at], e.action);
    if Next(c, s, e).nodes[i].finalized == n.finalized {
      DescendsReflexive(w.lineage, Pointer(n));
      DescendantPointsBelow(c, w, Pointer(n), Pointer(n), n.finalized, n.finalized);
    } else {
      PointerAscends(c, w, n);
      DescendantPointsBelow(c, w, Pointer(n), n.finalizer.digest, n.finalized, Next(c, s, e).nodes[i].finalized);
    }
  }

  /** When consensus also hands out only parents on the finalized chain, every forkchoice state a
      build asks with, for a recorded parent, has its safe and finalized hash on the way down from
      its head, under every interleaving with the finalizer. */
  lemma BuildForkchoiceIsWellFormed(c: Spec, s: Sys, i: nat)
    requires c.Valid() && Reachable(c, OnTheChain, s) && i < |s.nodes| && s.nodes[i].task.Asking?
    requires s.nodes[i].task.job.msg.parent in s.nodes[i].stores.blockInfo
    ensures WellFormed(s.nodes[i].stores.tree, s.nodes[i].task.fc)
    ensures s.nodes[i].task.fc.head == HashOf(c, s.nodes[i].task.job.msg.parent)
  {
    ReachableOrder(c, OnTheChain, s);
    RecordDescribesBlock(c, s.world, s.nodes[i], s.nodes[i].task.job.msg.parent);
  }

  // ── Nothing is skipped but what is not recorded ──

  /** How one step of any task may end the finalizer's turn on the digest it holds in `n`. */
  ghost predicate TurnEnds(n: Node, a: Action, n': Node) {
    var tracked := n'.finalized == n.finalized && n'.log.pointers == n.log.pointers;
    match n.finalizer
    case Waiting => false
    case Taken(d) => a.DoLookup? && d !in n.stores.blockInfo && tracked
    case Updating(_, _, _) => a == DoUpdate(Unreachable) && tracked
    case Applying(d, hash, number) =>
      a.DoSetFinalized? && n'.finalized == Finalized(hash, number) && n'.log.pointers == n.log.pointers + [d]
  }

  /** In every reachable state in which the finalizer holds a digest, any step of any task leaves it
      held, or ends its turn: by the tracker moving to the digest's block, by the lookup missing, or
      by the engine being out of reach, and in the last two cases the tracker stands. A lookup that
      finds the record takes over its hash, which the node's engine has; and the update succeeds
      exactly if the engine answers it at all. */
  lemma OnlyMissesAreSkipped(c: Spec, env: Consensus, s: Sys, i: nat, a: Action)
    requires c.Valid() && Reachable(c, env, s) && i < |s.nodes| && !s.nodes[i].finalizer.Waiting?
    ensures var n, n' := s.nodes[i], Step(c, s.nodes[i], a);
            && (if n'.finalizer.Waiting? then TurnEnds(n, a, n')
                else n'.finalizer.digest == n.finalizer.digest
                     && n'.finalized == n.finalized && n'.log.pointers == n.log.pointers)
            && (n.finalizer.Taken? && a.DoLookup? ==>
                  if n.finalizer.digest in n.stores.blockInfo then n'.finalizer.Updating? else n'.finalizer.Waiting?)
            && (n.finalizer.Applying? && a.DoSetFinalized? ==> n'.finalizer.Waiting?)
            && (n.finalizer.Updating? && a.DoUpdate? ==>
                  if a == DoUpdate(Unreachable) then n'.finalizer.Waiting? else n'.finalizer.Applying?)
            && (n'.finalizer.Updating? || n'.finalizer.Applying? ==>
                  && n'.finalizer.hash in n'.stores.tree
                  && PointsTo(c, s.world, Finalized(n'.finalizer.hash, n'.finalizer.number), n.finalizer.digest))
  {
    ReachableOrder(c, env, s);
    var n := s.nodes[i];
    assert NodeOk(c, s.world, n) && OrderOk(c, env, s.world, n);
    TrackerStep(c, s.world, n, a);
    if !ActsOnPointer(a) {
      OthersLeavePointer(c, n, a);
    } else {
      TurnStep(c, n, a);
    }
  }

  lemma TurnStep(c: Spec, n: Node, a: Action)
    requires ActsOnPointer(a) && !n.finalizer.Waiting?
    requires n.finalizer.Updating? ==> n.finalizer.hash in n.stores.tree
    ensures var n' := Step(c, n, a);
            && (if n'.finalizer.Waiting? then TurnEnds(n, a, n')
                else n'.finalizer.digest == n.finalizer.digest
                     && n'.finalized == n.finalized && n'.log.pointers == n.log.pointers)
            && (n.finalizer.Taken? && a.DoLookup? ==>
                  if n.finalizer.digest in n.stores.blockInfo then n'.finalizer.Updating? else n'.finalizer.Waiting?)
            && (n.finalizer.Applying? && a.DoSetFinalized? ==> n'.finalizer.Waiting?)
            && (n.finalizer.Updating? && a.DoUpdate? ==>
                  if a == DoUpdate(Unreachable) then n'.finalizer.Waiting? else n'.finalizer.Applying?)
  {}

  /** The engine answers every update of the finalizer of node `i`. */
  predicate AnswersFinalizer(events: seq<Event>, i: nat) {
    forall k | 0 <= k < |events| :: events[k] != Event(i, DoUpdate(Unreachable))
  }

  /** The finalizer holds `d`, recorded, and the tracker has moved to `pointers` so far. */
  predicate Holding(n: Node, d: Hash, pointers: seq<Hash>) {
    && !n.finalizer.Waiting? && n.finalizer.digest == d && n.log.pointers == pointers
    && (n.finalizer.Taken? ==> d in n.stores.blockInfo)
  }

  lemma HoldingStep(c: Spec, env: Consensus, s: Sys, i: nat, a: Action, d: Hash, pointers: seq<Hash>)
    requires c.Valid() && Reachable(c, env, s) && i < |s.nodes| && a != DoUpdate(Unreachable)
    requires Holding(s.nodes[i], d, pointers)
    ensures var n' := Step(c, s.nodes[i], a); Holding(n', d, pointers) || n'.log.pointers == pointers + [d]
  {
    OnlyMissesAreSkipped(c, env, s, i, a);
    StepKeepsStores(c, s.nodes[i], a);
  }

  /** So over every run in which the engine answers, with any interleaving, a digest that was
      recorded when the finalizer took it is still held, or is the next the tracker moved to. */
  lemma {:induction false} RecordedIsApplied(
    c: Spec, env: Consensus, s: Sys, events: seq<Event>, i: nat, d: Hash, pointers: seq<Hash>)
    requires c.Valid() && Reachable(c, env, s) && Legal(c, env, s, events) && i < |s.nodes|
    requires AnswersFinalizer(events, i) && Holding(s.nodes[i], d, pointers)
    ensures |Run(c, env, s, events).nodes| == |s.nodes|
    ensures var n' := Run(c, env, s, events).nodes[i];
            Holding(n', d, pointers) || pointers + [d] <= n'.log.pointers
    decreases |events|
  {
    if events != [] {
      var e, s' := events[0], Next(c, s, events[0]);
      ReachableNext(c, env, s, e);
      if e.at == i {
        HoldingStep(c, env, s, i, e.action, d, pointers);
      }
      if Holding(s'.nodes[i], d, pointers) {
        RecordedIsApplied(c, env, s', events[1..], i, d, pointers);
      } else {
        RunKeeps(c, env, s', events[1..], i);
      }
    }
  }
}
