/** Which votes are cast for a block: for every honest one at every node that has its parent. */
module Votes {
  import opened Basics
  import opened Engine
  import opened Timestamps
  import opened Wire
  import opened Glue
  import opened System
  import opened Runs
  import opened Agreement
  import opened Lineage
  import opened Conservation
  import opened Proposals

  // ── One vote, step by step ──

  /** A vote is under way, with its bytes at hand. */
  predicate Stands(n: Node) {
    IsVerifying(n.task) && (n.task.Looking? ==> n.task.found.Some? || n.task.vote.payload in n.stores.receivedBlocks)
  }

  /** The vote under way is `vote`, number `k` of its node. */
  predicate Standing(n: Node, vote: Verify, k: nat) {
    Stands(n) && n.task.vote == vote && |n.log.verdicts| == k
  }

  /** Bytes at hand are those of a built block; and once validated, its parent was there. */
  lemma StandingIsBuilt(c: Spec, w: World, n: Node)
    requires c.Valid() && WorldOk(c, w) && NodeOk(c, w, n) && Stands(n)
    ensures n.task.vote.payload in w.lineage && n.task.vote.payload in w.built
    ensures w.built[n.task.vote.payload].parentHash == HashOf(c, w.lineage[n.task.vote.payload])
    ensures n.task.Noting? ==> w.built[n.task.vote.payload].parentHash in n.stores.tree
  {
    var d := n.task.vote.payload;
    assert d in w.lineage;
    BuiltBlockValidates(c, w, n.stores.tree, d, Immediate);
    if n.task.Noting? {
      assert Rooted(c, n.stores.tree, d);
    }
  }

  /** The actor's own next step on the vote. */
  predicate Advances(t: Task, a: Action) {
    (t.Looking? && a.DoLook?) || (t.Validating? && a.DoValidate?) || (t.Noting? && a.DoNote?)
  }

  lemma OthersLeaveVote(c: Spec, n: Node, a: Action)
    requires IsVerifying(n.task) && !Advances(n.task, a)
    ensures Step(c, n, a).task == n.task && Step(c, n, a).log.verdicts == n.log.verdicts
  {
    match a
    case DoLook =>
    case DoValidate(mood) =>
    case DoNote =>
    case _ =>
  }

  /** The record a vote for block `b` leaves, and nothing else. */
  predicate Recorded(n: Node, n': Node, vote: Verify, b: Block) {
    n'.stores == n.stores.(blockInfo := n.stores.blockInfo[vote.payload :=
      BlockInfo(b.number, vote.payload, vote.view, vote.proposer, b.timestamp, ToMillis(b.timestamp))])
  }

  /** How one step of any task may decide the vote under way in `n`: for the block when it is noted;
      against it when the engine has no parent for it or does not answer at once. */
  ghost predicate Decides(n: Node, a: Action, n': Node, b: Block)
    requires IsVerifying(n.task)
  {
    var vote := n.task.vote;
    && n'.task.Idle? && Advances(n.task, a)
    && match n.task
       case Noting(_, _) =>
         Recorded(n, n', vote, b) && n'.log.verdicts == n.log.verdicts + [Verdict(vote.payload, true)]
       case Validating(_, _) =>
         && (!a.mood.Immediate? || b.parentHash !in n.stores.tree)
         && n'.log.verdicts == n.log.verdicts + [Verdict(vote.payload, false)]
       case _ => false
  }

  lemma LookFinds(n: Node)
    requires n.task.Looking? && Stands(n)
    ensures Look(n).task.Validating? && Standing(Look(n), n.task.vote, |n.log.verdicts|)
    ensures Look(n).stores == n.stores
  {}

  /** A built block is taken on to noting exactly if the engine answers at once and has its parent,
      and voted down otherwise. */
  predicate ValidatedRight(c: Spec, n: Node, b: Block, mood: ImportMood)
    requires n.task.Validating?
  {
    var n', d := Validate(c, n, mood), n.task.vote.payload;
    && n'.stores == n.stores.(tree :=
         if b.parentHash in n.stores.tree && !mood.Broken? then n.stores.tree[d := b] else n.stores.tree)
    && (if mood.Immediate? && b.parentHash in n.stores.tree then
          n'.task == Noting(n.task.vote, MetaOf(d, b)) && n'.log.verdicts == n.log.verdicts
        else
          n'.task.Idle? && n'.log.verdicts == n.log.verdicts + [Verdict(d, false)])
  }

  lemma BuiltIsValidatedRight(c: Spec, w: World, n: Node, mood: ImportMood)
    requires c.Valid() && WorldOk(c, w) && NodeOk(c, w, n) && n.task.Validating?
    ensures n.task.vote.payload in w.lineage && n.task.vote.payload in w.built
    ensures ValidatedRight(c, n, w.built[n.task.vote.payload], mood)
  {
    BuiltBlockValidates(c, w, n.stores.tree, n.task.vote.payload, mood);
    ValidateReports(c, n, mood);
  }

  /** So it is in every reachable state, whatever the engine's mood. */
  lemma ValidationIsExact(c: Spec, env: Consensus, s: Sys, i: nat, mood: ImportMood)
    requires c.Valid() && Reachable(c, env, s) && i < |s.nodes| && s.nodes[i].task.Validating?
    ensures s.nodes[i].task.vote.payload in s.world.built
    ensures ValidatedRight(c, s.nodes[i], s.world.built[s.nodes[i].task.vote.payload], mood)
  {
    ReachableOk(c, env, s);
    BuiltIsValidatedRight(c, s.world, s.nodes[i], mood);
  }

  lemma NotingRecords(c: Spec, w: World, n: Node)
    requires c.Valid() && WorldOk(c, w) && NodeOk(c, w, n) && n.task.Noting?
    ensures n.task.vote.payload in w.built
    ensures Decides(n, DoNote, Note(n), w.built[n.task.vote.payload])
  {}

  /** Any step of any task leaves a vote whose bytes are at hand standing, or decides it. */
  lemma StandingStep(c: Spec, w: World, n: Node, a: Action)
    requires c.Valid() && WorldOk(c, w) && NodeOk(c, w, n) && Stands(n)
    ensures n.task.vote.payload in w.lineage && n.task.vote.payload in w.built
    ensures var n' := Step(c, n, a);
            Standing(n', n.task.vote, |n.log.verdicts|) || Decides(n, a, n', w.built[n.task.vote.payload])
  {
    StandingIsBuilt(c, w, n);
    if !Advances(n.task, a) {
      OthersLeaveVote(c, n, a);
      StepKeepsMaps(c, n, a);
    } else {
      AdvancingStep(c, w, n, a);
    }
  }

  lemma AdvancingStep(c: Spec, w: World, n: Node, a: Action)
    requires c.Valid() && WorldOk(c, w) && NodeOk(c, w, n) && Stands(n) && Advances(n.task, a)
    requires n.task.vote.payload in w.built
    ensures var n' := Step(c, n, a);
            Standing(n', n.task.vote, |n.log.verdicts|) || Decides(n, a, n', w.built[n.task.vote.payload])
  {
    if n.task.Looking? {
      LookFinds(n);
    } else if n.task.Validating? {
      ValidationDecides(c, w, n, a.mood);
    } else {
      NotingRecords(c, w, n);
    }
  }

  lemma ValidationDecides(c: Spec, w: World, n: Node, mood: ImportMood)
    requires c.Valid() && WorldOk(c, w) && NodeOk(c, w, n) && n.task.Validating?
    ensures n.task.vote.payload in w.built
    ensures var n' := Validate(c, n, mood);
            || Standing(n', n.task.vote, |n.log.verdicts|)
            || Decides(n, DoValidate(mood), n', w.built[n.task.vote.payload])
  {
    BuiltIsValidatedRight(c, w, n, mood);
  }

  // ── One vote, over a run ──

  /** The engine answers every validation of node `i` at once. */
  predicate ValidatesAtOnce(events: seq<Event>, i: nat) {
    forall k | 0 <= k < |events| && events[k].at == i && events[k].action.DoValidate? ::
      events[k].action.mood.Immediate?
  }

  /** Vote number `k` of the node went by whether its engine had the block `parent`: it did if the
      vote is for the block, and `prompt` and having had it in `before` make it so. */
  predicate WentByParent(n: Node, d: Hash, k: nat, parent: Hash, before: Tree, prompt: bool) {
    && k < |n.log.verdicts| && n.log.verdicts[k].payload == d
    && (n.log.verdicts[k].accepted ==> parent in n.stores.tree && d in n.stores.tree && d in n.stores.blockInfo)
    && (prompt && parent in before ==> n.log.verdicts[k].accepted)
  }

  /** The consensus parent of the vote's block in the world, as a block. */
  ghost predicate HasParent(c: Spec, w: World, d: Hash, parent: Hash) {
    d in w.lineage && parent == HashOf(c, w.lineage[d])
  }

  lemma WentAt(c: Spec, w: World, n: Node, a: Action, parent: Hash, prompt: bool)
    requires c.Valid() && WorldOk(c, w) && NodeOk(c, w, n) && Stands(n)
    requires HasParent(c, w, n.task.vote.payload, parent)
    requires prompt && a.DoValidate? ==> a.mood.Immediate?
    requires n.task.vote.payload in w.built && Decides(n, a, Step(c, n, a), w.built[n.task.vote.payload])
    ensures WentByParent(Step(c, n, a), n.task.vote.payload, |n.log.verdicts|, parent, n.stores.tree, prompt)
  {
    StandingIsBuilt(c, w, n);
    StepKeepsStores(c, n, a);
  }

  lemma VoteAfterStep(
    c: Spec, env: Consensus, s: Sys, e: Event, i: nat, vote: Verify, k: nat, parent: Hash, prompt: bool)
    requires c.Valid() && Reachable(c, env, s) && Enabled(c, env, s, e) && i < |s.nodes|
    requires Standing(s.nodes[i], vote, k) && HasParent(c, s.world, vote.payload, parent)
    requires prompt && e.at == i && e.action.DoValidate? ==> e.action.mood.Immediate?
    ensures Reachable(c, env, Next(c, s, e)) && HasParent(c, Next(c, s, e).world, vote.payload, parent)
    ensures var n, n' := s.nodes[i], Next(c, s, e).nodes[i];
            && (Standing(n', vote, k) || WentByParent(n', vote.payload, k, parent, n.stores.tree, prompt))
            && n.stores.tree.Keys <= n'.stores.tree.Keys
  {
    ReachableNext(c, env, s, e);
    ParentStays(c, env, s, e, vote.payload, parent);
    if e.at == i {
      VoteAfterOwnStep(c, env, s, i, e.action, vote, k, parent, prompt);
    }
  }

  lemma ParentStays(c: Spec, env: Consensus, s: Sys, e: Event, d: Hash, parent: Hash)
    requires c.Valid() && Reachable(c, env, s) && Enabled(c, env, s, e) && HasParent(c, s.world, d, parent)
    ensures HasParent(c, Next(c, s, e).world, d, parent)
  {
    ReachableOk(c, env, s);
    NextOk(c, env, s, e);
  }

  lemma VoteAfterOwnStep(
    c: Spec, env: Consensus, s: Sys, i: nat, a: Action, vote: Verify, k: nat, parent: Hash, prompt: bool)
    requires c.Valid() && Reachable(c, env, s) && i < |s.nodes|
    requires Standing(s.nodes[i], vote, k) && HasParent(c, s.world, vote.payload, parent)
    requires prompt && a.DoValidate? ==> a.mood.Immediate?
    ensures var n, n' := s.nodes[i], Step(c, s.nodes[i], a);
            && (Standing(n', vote, k) || WentByParent(n', vote.payload, k, parent, n.stores.tree, prompt))
            && n.stores.tree.Keys <= n'.stores.tree.Keys
  {
    ReachableOk(c, env, s);
    var n := s.nodes[i];
    StepKeepsStores(c, n, a);
    StandingStep(c, s.world, n, a);
    if !Standing(Step(c, n, a), vote, k) {
      WentAt(c, s.world, n, a, parent, prompt);
    }
  }

  lemma VerdictStays(n: Node, n': Node, d: Hash, k: nat, parent: Hash, before: Tree, prompt: bool)
    requires WentByParent(n, d, k, parent, before, prompt)
    requires StoresStay(n.stores, n'.stores) && LogStays(n.log, n'.log)
    ensures WentByParent(n', d, k, parent, before, prompt)
  {}

  /** Over every run and interleaving, a vote whose bytes are at hand is still standing, or was
      decided by whether the node's engine holds the block of the consensus parent: for the block
      only if it does by the end, and for it if it did at the start and the engine answers at once. */
  lemma {:induction false} VoteGoesByParent(
    c: Spec, env: Consensus, s: Sys, events: seq<Event>, i: nat, vote: Verify, k: nat, parent: Hash)
    requires c.Valid() && Reachable(c, env, s) && Legal(c, env, s, events) && i < |s.nodes|
    requires Standing(s.nodes[i], vote, k) && HasParent(c, s.world, vote.payload, parent)
    ensures |Run(c, env, s, events).nodes| == |s.nodes|
    ensures var n, n' := s.nodes[i], Run(c, env, s, events).nodes[i];
            || Standing(n', vote, k)
            || WentByParent(n', vote.payload, k, parent, n.stores.tree, ValidatesAtOnce(events, i))
    decreases |events|
  {
    if events != [] {
      var s', prompt := Next(c, s, events[0]), ValidatesAtOnce(events, i);
      VoteAfterStep(c, env, s, events[0], i, vote, k, parent, prompt);
      if Standing(s'.nodes[i], vote, k) {
        VoteGoesByParent(c, env, s', events[1..], i, vote, k, parent);
        assert prompt ==> ValidatesAtOnce(events[1..], i);
      } else {
        RunKeeps(c, env, s', events[1..], i);
        VerdictStays(s'.nodes[i], Run(c, env, s', events[1..]).nodes[i], vote.payload, k, parent,
                     s.nodes[i].stores.tree, prompt);
      }
    }
  }

  // ── Honest proposals are accepted ──

  /** Broadcasting sends the digest and the stored bytes, and nothing else, exactly if the node has
      stored them; no node changes. */
  lemma BroadcastIsSent(c: Spec, env: Consensus, s: Sys, j: nat, d: Hash)
    requires j < |s.nodes|
    ensures Enabled(c, env, s, Event(j, DoBroadcast(d)))
    ensures var s', pending := Next(c, s, Event(j, DoBroadcast(d))), s.nodes[j].stores.pendingBlocks;
            && s'.net == (if d in pending then s.net + {d.bytes + pending[d]} else s.net)
            && s'.nodes == s.nodes && s'.world == s.world
  {}

  /** What was broadcast can be received by every node at any later time. */
  lemma BroadcastCanBeReceived(c: Spec, env: Consensus, s: Sys, j: nat, d: Hash, before: seq<Event>, i: nat)
    requires j < |s.nodes| && i < |s.nodes| && d in s.nodes[j].stores.pendingBlocks
    requires Legal(c, env, Next(c, s, Event(j, DoBroadcast(d))), before)
    ensures var s' := Run(c, env, Next(c, s, Event(j, DoBroadcast(d))), before);
            && |s'.nodes| == |s.nodes|
            && Enabled(c, env, s', Event(i, DoReceive(d.bytes + s.nodes[j].stores.pendingBlocks[d])))
  {
    BroadcastIsSent(c, env, s, j, d);
    RunKeeps(c, env, Next(c, s, Event(j, DoBroadcast(d))), before, i);
  }

  /** Receiving a message long enough to hold a digest stores the rest under it and counts it, and
      changes nothing else; a shorter one changes nothing. */
  lemma ReceiveIsExact(c: Spec, n: Node, data: seq<Byte>)
    ensures Step(c, n, DoReceive(data)) ==
            if |data| < 32 then n
            else n.(
              stores := n.stores.(receivedBlocks := n.stores.receivedBlocks[Hash(data[..32]) := data[32..]]),
              metrics := n.metrics.(blocksReceived := n.metrics.blocksReceived + 1))
  {}

  /** Whoever has stored a block and broadcasts it, every node that receives it, at any later time, has
      its encoding from then on through every run. */
  lemma FrameStaysFound(
    c: Spec, env: Consensus, s: Sys, j: nat, d: Hash, before: seq<Event>, s': Sys, i: nat, after: seq<Event>)
    requires c.Valid() && Reachable(c, env, s) && j < |s.nodes| && d in s.nodes[j].stores.pendingBlocks
    requires Legal(c, env, Next(c, s, Event(j, DoBroadcast(d))), before)
    requires s' == Run(c, env, Next(c, s, Event(j, DoBroadcast(d))), before) && i < |s'.nodes|
    requires Legal(c, env, Next(c, s', Event(i, DoReceive(d.bytes + s.nodes[j].stores.pendingBlocks[d]))), after)
    ensures var receive := Event(i, DoReceive(d.bytes + s.nodes[j].stores.pendingBlocks[d]));
            var end := Run(c, env, Next(c, s', receive), after);
            && Enabled(c, env, s', receive) && |end.nodes| == |s'.nodes| == |s.nodes|
            && d in end.nodes[i].stores.receivedBlocks
            && IsEncodingOf(c, d, end.nodes[i].stores.receivedBlocks[d])
  {
    RunKeeps(c, env, Next(c, s, Event(j, DoBroadcast(d))), before, j);
    BroadcastCanBeReceived(c, env, s, j, d, before, i);
    ReachableNext(c, env, s, Event(j, DoBroadcast(d)));
    ReachableRun(c, env, Next(c, s, Event(j, DoBroadcast(d))), before);
    ReceivedStays(c, env, s', i, d, s.nodes[j].stores.pendingBlocks[d], after);
  }

  lemma ReceivedStays(c: Spec, env: Consensus, s: Sys, i: nat, d: Hash, block: seq<Byte>, after: seq<Event>)
    requires c.Valid() && Reachable(c, env, s) && Enabled(c, env, s, Event(i, DoReceive(d.bytes + block)))
    requires Legal(c, env, Next(c, s, Event(i, DoReceive(d.bytes + block))), after)
    ensures var end := Run(c, env, Next(c, s, Event(i, DoReceive(d.bytes + block))), after);
            && |end.nodes| == |s.nodes| && d in end.nodes[i].stores.receivedBlocks
            && IsEncodingOf(c, d, end.nodes[i].stores.receivedBlocks[d])
  {
    var receive := Event(i, DoReceive(d.bytes + block));
    assert (d.bytes + block)[..32] == d.bytes;
    ReceiveIsExact(c, s.nodes[i], d.bytes + block);
    RunKeeps(c, env, Next(c, s, receive), after, i);
    ReachableNext(c, env, s, receive);
    ReachableRun(c, env, Next(c, s, receive), after);
    StoredBlocksAgree(c, env, Run(c, env, Next(c, s, receive), after), i, i, d);
  }

  /** A digest answered at any node, once its block has reached another, is voted for there over every
      interleaving as the engine there holds the block of the proposal's parent: the vote taken up is
      still standing, or was cast for the block only if the parent is there by then, and surely if it
      was there from the start and the engine answers at once. */
  lemma HonestProposalIsAccepted(
    c: Spec, env: Consensus, s: Sys, i: nat, j: nat, a: Answer, vote: Verify, events: seq<Event>)
    requires c.Valid() && Reachable(c, env, s) && i < |s.nodes| && j < |s.nodes|
    requires a in s.nodes[j].log.answers && vote.payload == a.digest
    requires s.nodes[i].task.Idle? && vote.proposer in s.nodes[i].validators
    requires a.digest in s.nodes[i].stores.pendingBlocks || a.digest in s.nodes[i].stores.receivedBlocks
    requires Legal(c, env, Next(c, s, Event(i, DoStartVerify(vote))), events)
    ensures |Run(c, env, Next(c, s, Event(i, DoStartVerify(vote))), events).nodes| == |s.nodes|
    ensures var n, n' := s.nodes[i], Run(c, env, Next(c, s, Event(i, DoStartVerify(vote))), events).nodes[i];
            || Standing(n', vote, |n.log.verdicts|)
            || WentByParent(n', a.digest, |n.log.verdicts|, HashOf(c, a.parent),
                            n.stores.tree, ValidatesAtOnce(events, i))
  {
    var start := Event(i, DoStartVerify(vote));
    VoteStarts(c, env, s, i, j, a, vote);
    VoteGoesByParent(c, env, Next(c, s, start), events, i, vote, |s.nodes[i].log.verdicts|, HashOf(c, a.parent));
  }

  lemma VoteStarts(c: Spec, env: Consensus, s: Sys, i: nat, j: nat, a: Answer, vote: Verify)
    requires c.Valid() && Reachable(c, env, s) && i < |s.nodes| && j < |s.nodes|
    requires a in s.nodes[j].log.answers && vote.payload == a.digest
    requires s.nodes[i].task.Idle? && vote.proposer in s.nodes[i].validators
    requires a.digest in s.nodes[i].stores.pendingBlocks || a.digest in s.nodes[i].stores.receivedBlocks
    ensures var s' := Next(c, s, Event(i, DoStartVerify(vote)));
            && Reachable(c, env, s') && HasParent(c, s'.world, a.digest, HashOf(c, a.parent))
            && Standing(s'.nodes[i], vote, |s.nodes[i].log.verdicts|)
            && s'.nodes[i].stores == s.nodes[i].stores
  {
    AnswerHasParent(c, env, s, j, a);
    ReachableNext(c, env, s, Event(i, DoStartVerify(vote)));
    StartStands(s.nodes[i], vote);
  }

  lemma AnswerHasParent(c: Spec, env: Consensus, s: Sys, j: nat, a: Answer)
    requires c.Valid() && Reachable(c, env, s) && j < |s.nodes| && a in s.nodes[j].log.answers
    ensures HasParent(c, s.world, a.digest, HashOf(c, a.parent))
  {
    ReachableOk(c, env, s);
    assert NodeOk(c, s.world, s.nodes[j]);
  }

  lemma StartStands(n: Node, vote: Verify)
    requires n.task.Idle? && vote.proposer in n.validators
    requires vote.payload in n.stores.pendingBlocks || vote.payload in n.stores.receivedBlocks
    ensures Standing(StartVerify(n, vote), vote, |n.log.verdicts|) && StartVerify(n, vote).stores == n.stores
  {}

  /** Nothing but the actor's own steps is needed for the decision: from any standing vote, looking,
      validating and noting end it. */
  lemma StandingVoteEnds(c: Spec, w: World, n: Node, mood: ImportMood)
    requires c.Valid() && WorldOk(c, w) && NodeOk(c, w, n) && Stands(n)
    ensures n.task.vote.payload in w.lineage
    ensures var n' := Note(Validate(c, Look(n), mood));
            && n'.task.Idle?
            && n'.log.verdicts == n.log.verdicts + [Verdict(n.task.vote.payload,
                 n.task.Noting? || (mood.Immediate? && HashOf(c, w.lineage[n.task.vote.payload]) in n.stores.tree))]
  {
    StandingIsBuilt(c, w, n);
    if n.task.Looking? {
      LookFinds(n);
      StepOk(c, w, n, DoLook);
      ValidatedVoteEnds(c, w, Look(n), mood);
    } else if n.task.Validating? {
      ValidatedVoteEnds(c, w, n, mood);
    } else {
      NotingRecords(c, w, n);
    }
  }

  lemma ValidatedVoteEnds(c: Spec, w: World, n: Node, mood: ImportMood)
    requires c.Valid() && WorldOk(c, w) && NodeOk(c, w, n) && n.task.Validating?
    ensures n.task.vote.payload in w.built
    ensures var n' := Note(Validate(c, n, mood));
            && n'.task.Idle?
            && n'.log.verdicts == n.log.verdicts + [Verdict(n.task.vote.payload,
                 mood.Immediate? && w.built[n.task.vote.payload].parentHash in n.stores.tree)]
  {
    BuiltIsValidatedRight(c, w, n, mood);
  }

  // ── The parent a vote claims ──

  /** The consensus parent named in a vote plays no part: the stores, the counters and the verdict
      are the same for every other one. */
  lemma ClaimedParentIsIgnored(c: Spec, n: Node, vote: Verify, parent: Hash, mood: ImportMood)
    ensures Alike(VerifyRun(c, n, vote, mood), VerifyRun(c, n, vote.(parent := parent), mood))
  {
    var v, u := Look(StartVerify(n, vote)), Look(StartVerify(n, vote.(parent := parent)));
    assert AlikeButParent(v, u);
    JudgedAlike(c, v, u, mood);
  }

  predicate Alike(n: Node, m: Node) {
    n.stores == m.stores && n.metrics == m.metrics && n.log.verdicts == m.log.verdicts
  }

  predicate AlikeButParent(n: Node, m: Node) {
    && Alike(n, m)
    && (n.task == m.task
        || (n.task.Validating? && m.task.Validating? && n.task.bytes == m.task.bytes
            && m.task.vote == n.task.vote.(parent := m.task.vote.parent)))
  }

  lemma JudgedAlike(c: Spec, n: Node, m: Node, mood: ImportMood)
    requires AlikeButParent(n, m)
    ensures Alike(Note(Validate(c, n, mood)), Note(Validate(c, m, mood)))
  {
    ValidatedAlike(c, n, m, mood);
    NotedAlike(Validate(c, n, mood), Validate(c, m, mood));
  }

  predicate AlikeToNote(n: Node, m: Node) {
    && Alike(n, m)
    && (n.task == m.task
        || (n.task.Noting? && m.task.Noting? && n.task.meta == m.task.meta
            && m.task.vote == n.task.vote.(parent := m.task.vote.parent)))
  }

  lemma ValidatedAlike(c: Spec, n: Node, m: Node, mood: ImportMood)
    requires AlikeButParent(n, m)
    ensures AlikeToNote(Validate(c, n, mood), Validate(c, m, mood))
  {
    if n.task.Validating? {
      match Glue.ValidateBlock(c, n.stores.tree, n.task.bytes, mood)
      case ValidBlock(meta) =>
      case InvalidBlock =>
      case ValidationError =>
    }
  }

  lemma NotedAlike(n: Node, m: Node)
    requires AlikeToNote(n, m)
    ensures Alike(Note(n), Note(m))
  {}

  /** So a vote cast for a block names the parent the block was built on exactly if it names the one
      its proposer was given; nothing in the node makes it so. */
  lemma AcceptedClaim(c: Spec, env: Consensus, s: Sys, i: nat, k: nat)
    requires c.Valid() && Reachable(c, env, s) && i < |s.nodes| && k < |s.nodes[i].log.verdicts|
    requires s.nodes[i].log.verdicts[k].accepted
    ensures k < |s.nodes[i].log.asked| && s.nodes[i].log.asked[k].payload == s.nodes[i].log.verdicts[k].payload
    ensures var d, claimed := s.nodes[i].log.asked[k].payload, s.nodes[i].log.asked[k].parent;
            && d in s.world.lineage && d in s.world.built
            && (claimed != c.GenesisHash() ==>
                 (HashOf(c, claimed) == s.world.built[d].parentHash <==> claimed == s.world.lineage[d]))
  {
    ReachableOk(c, env, s);
    ReachableBalanced(c, env, s, i);
    var w, n := s.world, s.nodes[i];
    assert NodeOk(c, w, n);
    var d := n.log.verdicts[k].payload;
    assert n.log.verdicts[k] in n.log.verdicts;
    RecordDescribesBlock(c, w, n, d);
    assert BuiltOn(c, w, d, w.lineage[d]);
  }
}
