/** What becomes of a build under every interleaving: once it has read the tracker its fate rests on
    one condition, which no other task can change. */
module Builds {
  import opened Basics
  import opened Ancestry
  import opened Engine
  import opened Timestamps
  import opened Glue
  import opened System
  import opened Runs
  import opened Agreement
  import opened Lineage
  import opened Finality
  import opened Conservation
  import opened Proposals

  // ── The condition ──

  /** The consensus digest of a block hash. */
  function DigestOf(c: Spec, h: Hash): Hash {
    if h == c.GenesisHash() then EMPTY else h
  }

  /** The parent extends the digest the tracker stood at when it was read, and its time fits. */
  ghost predicate Favoured(c: Spec, w: World, t: Task)
    requires t.Asking?
  {
    && HashOf(c, t.job.msg.parent) in w.built
    && Descends(w.lineage, DigestOf(c, t.fc.finalized), t.job.msg.parent)
    && w.built[HashOf(c, t.job.msg.parent)].timestamp <= MAX_SECONDS
  }

  /** The outcome of one attempt. */
  ghost predicate AskedRight(c: Spec, w: World, n: Node, mood: ForkchoiceMood)
    requires n.task.Asking?
  {
    var job, fc, attempt := n.task.job, n.task.fc, n.task.attempt;
    Ask(n, mood) ==
      if mood.Ready? && Favoured(c, w, n.task) then n.(task := Resolving(job))
      else if attempt + 1 < ATTEMPTS then n.(task := Asking(job, fc, attempt + 1))
      else FailBuild(n)
  }

  /** The state asks for the parent's block, finalized at the digest read from the tracker. */
  ghost predicate AsksForParent(c: Spec, w: World, t: Task)
    requires t.Asking?
  {
    var x := DigestOf(c, t.fc.finalized);
    Known(w, x) && t.fc == Forkchoice(HashOf(c, t.job.msg.parent), HashOf(c, x), HashOf(c, x))
  }

  /** Whatever has happened since the tracker was read, each attempt of a build on a recorded parent
      is granted exactly if the engine is ready and the build is favoured; and the fifth that is not
      ends it. */
  lemma AskIsExact(c: Spec, env: Consensus, s: Sys, i: nat, mood: ForkchoiceMood)
    requires c.Valid() && Reachable(c, env, s) && i < |s.nodes| && s.nodes[i].task.Asking?
    requires s.nodes[i].task.job.msg.parent in s.nodes[i].stores.blockInfo
    ensures AsksForParent(c, s.world, s.nodes[i].task)
    ensures AskedRight(c, s.world, s.nodes[i], mood)
  {
    ReachableOrder(c, env, s);
    assert OrderOk(c, env, s.world, s.nodes[i]);
    AskTruth(c, s.world, s.nodes[i]);
    AskReply(s.nodes[i], mood);
  }

  lemma AskReply(n: Node, mood: ForkchoiceMood)
    requires n.task.Asking?
    ensures var fc := n.task.fc;
            Ask(n, mood) ==
              if mood.Ready? && WellFormed(n.stores.tree, fc)
                 && AttributesFollow(n.task.job.request.timestamp, n.stores.tree[fc.head])
              then n.(task := Resolving(n.task.job))
              else if n.task.attempt + 1 < ATTEMPTS then n.(task := Asking(n.task.job, fc, n.task.attempt + 1))
              else FailBuild(n)
  {}

  lemma AskTruth(c: Spec, w: World, n: Node)
    requires c.Valid() && WorldOk(c, w) && NodeOk(c, w, n) && AskOk(w, n.task)
    requires n.task.Asking? && n.task.job.msg.parent in n.stores.blockInfo
    ensures AsksForParent(c, w, n.task) && n.task.fc.head in n.stores.tree
    ensures Favoured(c, w, n.task) <==>
            WellFormed(n.stores.tree, n.task.fc)
            && AttributesFollow(n.task.job.request.timestamp, n.stores.tree[n.task.fc.head])
  {
    RecordDescribesBlock(c, w, n, n.task.job.msg.parent);
    RequestFollowsHead(c, w, n, n.task.job);
    WalkFindsAncestors(c, w, n.stores.tree, DigestOf(c, n.task.fc.finalized), n.task.job.msg.parent);
  }

  /** Later builds do not change who descends from whom among the blocks there are. */
  lemma DescendsStays(c: Spec, w: World, w': World, a: Hash, d: Hash)
    requires c.Valid() && WorldOk(c, w) && WorldOk(c, w') && Grown(w, w') && Known(w, d)
    ensures Descends(w.lineage, a, d) <==> Descends(w'.lineage, a, d)
  {
    if Descends(w.lineage, a, d) {
      DescendsMonotone(w.lineage, w'.lineage, a, d);
    }
    if Descends(w'.lineage, a, d) {
      var k: nat :| Up(w'.lineage, d, k) == Some(a);
      NumbersAreDepths(c, w', d, k);
      NumbersAreDepths(c, w, d, k);
      UpMonotone(w.lineage, w'.lineage, d, k);
    }
  }

  lemma FavourStays(c: Spec, env: Consensus, s: Sys, e: Event, t: Task)
    requires c.Valid() && Reachable(c, env, s) && Enabled(c, env, s, e)
    requires t.Asking? && Known(s.world, t.job.msg.parent)
    ensures Favoured(c, Next(c, s, e).world, t) <==> Favoured(c, s.world, t)
  {
    ReachableOk(c, env, s);
    NextOk(c, env, s, e);
    NumbersAreDepths(c, s.world, t.job.msg.parent, 0);
    DescendsStays(c, s.world, Next(c, s, e).world, DigestOf(c, t.fc.finalized), t.job.msg.parent);
  }

  // ── One step ──

  /** The actor's own next step on a build that has read the tracker. */
  predicate Furthers(t: Task, a: Action) {
    || (t.Asking? && a.DoAsk?) || (t.Resolving? && a.DoResolve?) || (t.Importing? && a.DoImport?)
    || (t.Recording? && a.DoRecord?) || (t.Storing? && a.DoStore?) || (t.Answering? && a.DoAnswer?)
  }

  lemma OthersLeaveBuild(c: Spec, n: Node, a: Action)
    requires IsBuilding(n.task) && !n.task.Requested? && !Furthers(n.task, a)
    ensures var n' := Step(c, n, a);
            n'.task == n.task && n'.log.answers == n.log.answers && n'.log.handed == n.log.handed
  {
    if !ActsOnBuilds(a) {
      OthersLeaveBuilds(c, n, a);
    } else {
      match a
      case DoStartPropose(_, _) =>
      case DoAsk(_) =>
      case _ =>
    }
  }

  /** The build of proposal number `turn` is under way, past reading the tracker, with its parent
      recorded; nothing has been answered since `answers`. */
  predicate Carrying(n: Node, job: Job, turn: nat, answers: seq<Answer>) {
    && IsBuilding(n.task) && !n.task.Requested? && n.task.job == job
    && n.log.answers == answers && |n.log.handed| == turn
    && job.msg.parent in n.stores.blockInfo
  }

  /** The next answer after `answers` went to proposal number `turn`. */
  predicate AnsweredTurn(n: Node, job: Job, turn: nat, answers: seq<Answer>) {
    && |answers| < |n.log.answers| && answers <= n.log.answers
    && n.log.answers[|answers|].turn == turn && n.log.answers[|answers|].parent == job.msg.parent
  }

  /** The engine does its part in a step: it is ready, resolves and imports. */
  predicate Obliges(a: Action) {
    && (a.DoAsk? ==> a.forkchoice.Ready?)
    && (a.DoResolve? ==> a.built.Some?)
    && (a.DoImport? ==> !a.mood.Broken?)
  }

  lemma ImportSucceeds(c: Spec, w: World, n: Node, mood: ImportMood)
    requires c.Valid() && WorldOk(c, w) && NodeOk(c, w, n) && n.task.Importing? && !mood.Broken?
    ensures Import(c, n, mood).task == Recording(n.task.job, n.task.block)
    ensures Import(c, n, mood).log == n.log && Import(c, n, mood).stores.blockInfo == n.stores.blockInfo
  {
    RecordDescribesBlock(c, w, n, n.task.job.msg.parent);
    BuiltBlockValidates(c, w, n.stores.tree, c.hash(n.task.block), mood);
  }

  lemma FurtherStep(c: Spec, n: Node, a: Action)
    requires Furthers(n.task, a) && !n.task.Asking? && !n.task.Importing? && Obliges(a)
    requires n.task.job.msg.parent in n.stores.blockInfo
    ensures var n', turn := Step(c, n, a), |n.log.handed|;
            Carrying(n', n.task.job, turn, n.log.answers) || AnsweredTurn(n', n.task.job, turn, n.log.answers)
    ensures !Step(c, n, a).task.Asking?
  {
    match a
    case DoResolve(built) =>
    case DoRecord =>
    case DoStore =>
    case DoAnswer =>
  }

  /** A favoured build whose engine does its part goes on or is answered, whatever steps. */
  lemma CarriedOn(c: Spec, env: Consensus, s: Sys, i: nat, a: Action, job: Job, turn: nat, answers: seq<Answer>)
    requires c.Valid() && Reachable(c, env, s) && i < |s.nodes| && Obliges(a)
    requires Carrying(s.nodes[i], job, turn, answers)
    requires s.nodes[i].task.Asking? ==> Favoured(c, s.world, s.nodes[i].task)
    ensures var n' := Step(c, s.nodes[i], a);
            Carrying(n', job, turn, answers) || AnsweredTurn(n', job, turn, answers)
    ensures Step(c, s.nodes[i], a).task.Asking? ==> Step(c, s.nodes[i], a).task == s.nodes[i].task
  {
    var n := s.nodes[i];
    StepKeepsStores(c, n, a);
    if !Furthers(n.task, a) {
      OthersLeaveBuild(c, n, a);
    } else if n.task.Asking? {
      AskIsExact(c, env, s, i, a.forkchoice);
      assert Step(c, n, a) == n.(task := Resolving(job));
    } else if n.task.Importing? {
      ImportCarries(c, env, s, i, a.mood);
    } else {
      FurtherStep(c, n, a);
    }
  }

  lemma ImportCarries(c: Spec, env: Consensus, s: Sys, i: nat, mood: ImportMood)
    requires c.Valid() && Reachable(c, env, s) && i < |s.nodes| && s.nodes[i].task.Importing? && !mood.Broken?
    ensures Import(c, s.nodes[i], mood).task == Recording(s.nodes[i].task.job, s.nodes[i].task.block)
    ensures Import(c, s.nodes[i], mood).log == s.nodes[i].log
    ensures Import(c, s.nodes[i], mood).stores.blockInfo == s.nodes[i].stores.blockInfo
  {
    ReachableOk(c, env, s);
    ImportSucceeds(c, s.world, s.nodes[i], mood);
  }

  // ── Over a run ──

  predicate ObligesAll(events: seq<Event>, i: nat) {
    forall k | 0 <= k < |events| && events[k].at == i :: Obliges(events[k].action)
  }

  /** Over every run and interleaving in which the engine does its part, a build on a recorded parent
      that reads the tracker at an ancestor of it is still under way or has been answered; it does
      not fail. */
  lemma {:induction false} FavouredBuildIsAnswered(
    c: Spec, env: Consensus, s: Sys, events: seq<Event>, i: nat, job: Job, turn: nat, answers: seq<Answer>)
    requires c.Valid() && Reachable(c, env, s) && Legal(c, env, s, events) && i < |s.nodes|
    requires Carrying(s.nodes[i], job, turn, answers) && ObligesAll(events, i)
    requires s.nodes[i].task.Asking? ==> Favoured(c, s.world, s.nodes[i].task)
    ensures |Run(c, env, s, events).nodes| == |s.nodes|
    ensures var n' := Run(c, env, s, events).nodes[i];
            Carrying(n', job, turn, answers) || AnsweredTurn(n', job, turn, answers)
    decreases |events|
  {
    if events != [] {
      var e, s' := events[0], Next(c, s, events[0]);
      ReachableNext(c, env, s, e);
      if e.at == i {
        CarriedOn(c, env, s, i, e.action, job, turn, answers);
      }
      if Carrying(s'.nodes[i], job, turn, answers) {
        if s'.nodes[i].task.Asking? {
          RecordedIsKnown(c, env, s, i, job.msg.parent);
          FavourStays(c, env, s, e, s.nodes[i].task);
        }
        FavouredBuildIsAnswered(c, env, s', events[1..], i, job, turn, answers);
      } else {
        RunKeeps(c, env, s', events[1..], i);
      }
    }
  }

  lemma RecordedIsKnown(c: Spec, env: Consensus, s: Sys, i: nat, d: Hash)
    requires c.Valid() && Reachable(c, env, s) && i < |s.nodes| && d in s.nodes[i].stores.blockInfo
    ensures Known(s.world, d)
  {
    ReachableOk(c, env, s);
    RecordDescribesBlock(c, s.world, s.nodes[i], d);
  }

  /** The build of proposal number `turn` is over without an answer. */
  predicate Over(n: Node, turn: nat, answered: nat) {
    && turn <= |n.log.handed| && (IsBuilding(n.task) ==> turn < |n.log.handed|)
    && forall k | answered <= k < |n.log.answers| :: turn < n.log.answers[k].turn
  }

  lemma OverStays(c: Spec, n: Node, a: Action, turn: nat, answered: nat)
    requires Over(n, turn, answered)
    ensures Over(Step(c, n, a), turn, answered)
  {
    if !ActsOnBuilds(a) {
      OthersLeaveBuilds(c, n, a);
    } else {
      match a
      case DoStartPropose(_, _) =>
      case DoAnswer =>
      case _ =>
    }
  }

  /** A build that is not favoured goes on asking or is over, whatever steps. */
  lemma Refused(c: Spec, env: Consensus, s: Sys, i: nat, a: Action)
    requires c.Valid() && Reachable(c, env, s) && i < |s.nodes| && s.nodes[i].task.Asking?
    requires s.nodes[i].task.job.msg.parent in s.nodes[i].stores.blockInfo
    requires !Favoured(c, s.world, s.nodes[i].task)
    ensures var n, n' := s.nodes[i], Step(c, s.nodes[i], a);
            if n'.task.Asking? then
              && n'.task.job == n.task.job && n'.task.fc == n.task.fc && n'.log.answers == n.log.answers
              && n'.log.handed == n.log.handed && n'.task.job.msg.parent in n'.stores.blockInfo
            else Over(n', |n.log.handed|, |n.log.answers|)
  {
    var n := s.nodes[i];
    StepKeepsStores(c, n, a);
    if !Furthers(n.task, a) {
      OthersLeaveBuild(c, n, a);
    } else {
      AskIsExact(c, env, s, i, a.forkchoice);
    }
  }

  lemma {:induction false} OverForever(
    c: Spec, env: Consensus, s: Sys, events: seq<Event>, i: nat, turn: nat, answered: nat)
    requires Legal(c, env, s, events) && i < |s.nodes| && Over(s.nodes[i], turn, answered)
    ensures |Run(c, env, s, events).nodes| == |s.nodes| && Over(Run(c, env, s, events).nodes[i], turn, answered)
    decreases |events|
  {
    if events != [] {
      if events[0].at == i {
        OverStays(c, s.nodes[i], events[0].action, turn, answered);
      }
      OverForever(c, env, Next(c, s, events[0]), events[1..], i, turn, answered);
    }
  }

  /** Over every run and interleaving, whatever the engine does, a build on a recorded parent that
      reads the tracker elsewhere is never answered: it is still asking, or over. */
  lemma {:induction false} UnfavouredBuildIsRefused(
    c: Spec, env: Consensus, s: Sys, events: seq<Event>, i: nat, turn: nat, answered: nat)
    requires c.Valid() && Reachable(c, env, s) && Legal(c, env, s, events) && i < |s.nodes|
    requires s.nodes[i].task.Asking? && s.nodes[i].task.job.msg.parent in s.nodes[i].stores.blockInfo
    requires !Favoured(c, s.world, s.nodes[i].task)
    requires turn == |s.nodes[i].log.handed| && answered == |s.nodes[i].log.answers|
    ensures |Run(c, env, s, events).nodes| == |s.nodes|
    ensures var n' := Run(c, env, s, events).nodes[i];
            (n'.task.Asking? && |n'.log.answers| == answered && |n'.log.handed| == turn) || Over(n', turn, answered)
    decreases |events|
  {
    if events != [] {
      var e, s' := events[0], Next(c, s, events[0]);
      ReachableNext(c, env, s, e);
      if e.at == i {
        Refused(c, env, s, i, e.action);
      }
      if s'.nodes[i].task.Asking? {
        RecordedIsKnown(c, env, s, i, s.nodes[i].task.job.msg.parent);
        FavourStays(c, env, s, e, s'.nodes[i].task);
        UnfavouredBuildIsRefused(c, env, s', events[1..], i, turn, answered);
      } else {
        OverForever(c, env, s', events[1..], i, turn, answered);
      }
    }
  }

  // ── Proposals on the finalized chain ──

  lemma ReadsNext(c: Spec, n: Node, a: Action)
    requires n.task.Requested?
    ensures var n' := Step(c, n, a);
            && (n'.task == n.task || (n'.task.Asking? && n'.task.job == n.task.job))
            && n'.log.answers == n.log.answers && n'.log.handed == n.log.handed
  {
    if !ActsOnBuilds(a) {
      OthersLeaveBuilds(c, n, a);
    }
  }

  /** A proposal on a recorded parent is waiting to read the tracker. */
  predicate AboutToRead(n: Node, job: Job, turn: nat, answers: seq<Answer>) {
    && n.task == Requested(job) && n.log.answers == answers && |n.log.handed| == turn
    && job.msg.parent in n.stores.blockInfo
  }

  /** While consensus keeps proposals on the finalized chain and the engine does its part, over every
      run and interleaving, a proposal taken up on a recorded parent whose time fits never fails: it
      is waiting to read the tracker, under way, or answered. */
  lemma {:induction false} ProposalOnTheChainIsAnswered(
    c: Spec, s: Sys, events: seq<Event>, i: nat, job: Job, turn: nat, answers: seq<Answer>)
    requires c.Valid() && Reachable(c, OnTheChain, s) && Legal(c, OnTheChain, s, events) && i < |s.nodes|
    requires AboutToRead(s.nodes[i], job, turn, answers) && ObligesAll(events, i)
    requires job.msg.parent != EMPTY || c.genesis.timestamp <= MAX_SECONDS
    ensures |Run(c, OnTheChain, s, events).nodes| == |s.nodes|
    ensures var n' := Run(c, OnTheChain, s, events).nodes[i];
            || AboutToRead(n', job, turn, answers)
            || Carrying(n', job, turn, answers)
            || AnsweredTurn(n', job, turn, answers)
    decreases |events|
  {
    if events != [] {
      var e, s' := events[0], Next(c, s, events[0]);
      ReachableNext(c, OnTheChain, s, e);
      StepKeepsStores(c, s.nodes[e.at], e.action);
      if e.at == i {
        ReadsNext(c, s.nodes[i], e.action);
      }
      if s'.nodes[i].task.Asking? {
        OnTheChainIsFavoured(c, s', i);
        FavouredBuildIsAnswered(c, OnTheChain, s', events[1..], i, job, turn, answers);
      } else {
        ProposalOnTheChainIsAnswered(c, s', events[1..], i, job, turn, answers);
      }
    }
  }

  /** While consensus keeps proposals on the finalized chain, every build on a recorded parent other
      than a genesis whose time does not fit is favoured when it reads the tracker. */
  lemma OnTheChainIsFavoured(c: Spec, s: Sys, i: nat)
    requires c.Valid() && Reachable(c, OnTheChain, s) && i < |s.nodes| && s.nodes[i].task.Asking?
    requires s.nodes[i].task.job.msg.parent in s.nodes[i].stores.blockInfo
    ensures Favoured(c, s.world, s.nodes[i].task) <==>
            s.nodes[i].task.job.msg.parent != EMPTY || c.genesis.timestamp <= MAX_SECONDS
  {
    ReachableOrder(c, OnTheChain, s);
    var w, n := s.world, s.nodes[i];
    assert NodeOk(c, w, n) && OrderOk(c, OnTheChain, w, n);
    RecordDescribesBlock(c, w, n, n.task.job.msg.parent);
    RequestFollowsHead(c, w, n, n.task.job);
    AskTruth(c, w, n);
  }
}
