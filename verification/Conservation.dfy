/** Nothing is counted twice or lost: the counters of a node against what went in and out of it. */
module Conservation {
  import opened Basics
  import opened Engine
  import opened Glue
  import opened System
  import opened Runs
  import opened Agreement

  function CountAccepted(verdicts: seq<Verdict>): nat {
    if verdicts == [] then 0
    else CountAccepted(verdicts[..|verdicts| - 1]) + (if verdicts[|verdicts| - 1].accepted then 1 else 0)
  }

  /** Proposals handed out are answered, failed or under way, and answered in the order logged. */
  ghost predicate BuildsBalanced(n: Node) {
    && n.metrics.blocksProposed == |n.log.handed|
    && |n.log.handed| == |n.stores.proposals| + n.log.failedBuilds + (if IsBuilding(n.task) then 1 else 0)
    && |n.log.answers| == |n.stores.proposals|
    && (forall k | 0 <= k < |n.log.answers| :: n.log.answers[k].digest == n.stores.proposals[k])
  }

  /** Each answer goes to a proposal that was handed out, for the parent it named; no two go to the
      same one, and none to the one under way, which is the last. */
  ghost predicate AnswersMatch(n: Node) {
    && (forall k | 0 <= k < |n.log.answers| :: AnswerMatches(n.log.handed, n.log.answers[k]))
    && (forall j, k | 0 <= j < k < |n.log.answers| :: n.log.answers[j].turn < n.log.answers[k].turn)
    && (IsBuilding(n.task) ==>
          && n.log.handed != [] && n.log.handed[|n.log.handed| - 1] == n.task.job.msg
          && forall k | 0 <= k < |n.log.answers| :: n.log.answers[k].turn < |n.log.handed|)
  }

  predicate AnswerMatches(handed: seq<Propose>, a: Answer) {
    1 <= a.turn <= |handed| && a.parent == handed[a.turn - 1].parent
  }

  /** Verifications asked for are answered once each and in order, for the digest they asked about,
      but for the last if it is under way; none is accepted, or even looked at, whose proposer is not
      a validator; and they are counted as answered. */
  ghost predicate VotesBalanced(n: Node) {
    && |n.log.asked| == |n.log.verdicts| + (if IsVerifying(n.task) then 1 else 0)
    && (forall k | 0 <= k < |n.log.verdicts| :: n.log.verdicts[k].payload == n.log.asked[k].payload)
    && (forall k | 0 <= k < |n.log.verdicts| && n.log.verdicts[k].accepted :: n.log.asked[k].proposer in n.validators)
    && (IsVerifying(n.task) ==>
          n.log.asked[|n.log.verdicts|] == n.task.vote && n.task.vote.proposer in n.validators)
    && |n.log.verdicts| == n.metrics.blocksVerified + n.metrics.failedValidations
    && CountAccepted(n.log.verdicts) == n.metrics.blocksVerified
  }

  ghost predicate Balanced(n: Node) {
    && BuildsBalanced(n)
    && AnswersMatch(n)
    && VotesBalanced(n)
    && n.metrics.blocksFinalized == |n.log.reports|
  }

  predicate ActsOnBuilds(a: Action) {
    || a.DoStartPropose? || a.DoCapture? || a.DoAsk? || a.DoResolve?
    || a.DoImport? || a.DoRecord? || a.DoStore? || a.DoAnswer?
  }

  lemma OthersLeaveBuilds(c: Spec, n: Node, a: Action)
    requires !ActsOnBuilds(a)
    ensures var n' := Step(c, n, a);
            && n'.log.handed == n.log.handed
            && n'.metrics.blocksProposed == n.metrics.blocksProposed && n'.stores.proposals == n.stores.proposals
            && n'.log.failedBuilds == n.log.failedBuilds && n'.log.answers == n.log.answers
            && IsBuilding(n'.task) == IsBuilding(n.task) && (IsBuilding(n.task) ==> n'.task == n.task)
  {
    match a
    case DoStartVerify(vote) =>
    case DoLook =>
    case DoValidate(mood) =>
    case DoNote =>
    case _ =>
  }

  lemma BuildsStep(c: Spec, n: Node, a: Action)
    requires BuildsBalanced(n)
    ensures BuildsBalanced(Step(c, n, a))
  {
    if !ActsOnBuilds(a) {
      OthersLeaveBuilds(c, n, a);
    }
  }

  lemma AnswersStep(c: Spec, n: Node, a: Action)
    requires AnswersMatch(n)
    ensures AnswersMatch(Step(c, n, a))
  {
    if !ActsOnBuilds(a) {
      OthersLeaveBuilds(c, n, a);
    } else {
      match a
      case DoStartPropose(msg, now) =>
      case DoAsk(mood) =>
      case DoAnswer =>
      case _ =>
    }
  }

  /** The verification a task has under way, after the step that may have taken it up. */
  function UnderVote(n: Node, a: Action): Option<Verify> {
    if IsVerifying(n.task) then Some(n.task.vote)
    else if a.DoStartVerify? && n.task.Idle? then Some(a.vote)
    else None
  }

  /** A step casts at most one vote, for the verification under way, and counts it; otherwise that
      verification stays under way. Only a validator's is ever taken up, and only one taken up before
      is accepted. */
  ghost predicate VoteStepped(n: Node, a: Action, n': Node) {
    var vote := UnderVote(n, a);
    && n'.log.asked == n.log.asked + (if a.DoStartVerify? && n.task.Idle? then [a.vote] else [])
    && (n'.log.verdicts == n.log.verdicts ==>
          && n'.metrics.blocksVerified == n.metrics.blocksVerified
          && n'.metrics.failedValidations == n.metrics.failedValidations
          && (vote == if IsVerifying(n'.task) then Some(n'.task.vote) else None)
          && (IsVerifying(n'.task) && !IsVerifying(n.task) ==> n'.task.vote.proposer in n.validators))
    && (n'.log.verdicts != n.log.verdicts ==>
          && vote.Some? && !IsVerifying(n'.task)
          && exists ok ::
               && (ok ==> IsVerifying(n.task))
               && n'.log.verdicts == n.log.verdicts + [Verdict(vote.value.payload, ok)]
               && n'.metrics.blocksVerified == n.metrics.blocksVerified + (if ok then 1 else 0)
               && n'.metrics.failedValidations == n.metrics.failedValidations + (if ok then 0 else 1))
  }

  predicate ActsOnVotes(a: Action) {
    a.DoStartVerify? || a.DoLook? || a.DoValidate? || a.DoNote?
  }

  lemma OthersLeaveVotes(c: Spec, n: Node, a: Action)
    requires !ActsOnVotes(a)
    ensures var n' := Step(c, n, a);
            && n'.log.asked == n.log.asked && n'.log.verdicts == n.log.verdicts
            && n'.metrics.blocksVerified == n.metrics.blocksVerified
            && n'.metrics.failedValidations == n.metrics.failedValidations
            && IsVerifying(n'.task) == IsVerifying(n.task) && (IsVerifying(n.task) ==> n'.task == n.task)
  {}

  lemma VoteStep(c: Spec, n: Node, a: Action)
    ensures VoteStepped(n, a, Step(c, n, a))
  {
    if ActsOnVotes(a) {
      match a
      case DoStartVerify(vote) =>
      case DoLook =>
      case DoValidate(mood) =>
      case DoNote =>
    } else {
      OthersLeaveVotes(c, n, a);
    }
  }

  lemma VotesStayBalanced(n: Node, a: Action, n': Node)
    requires VotesBalanced(n) && VoteStepped(n, a, n') && n'.validators == n.validators
    ensures VotesBalanced(n')
  {}

  lemma VotesStep(c: Spec, n: Node, a: Action)
    requires VotesBalanced(n)
    ensures VotesBalanced(Step(c, n, a))
  {
    VoteStep(c, n, a);
    StepKeepsValidators(c, n, a);
    VotesStayBalanced(n, a, Step(c, n, a));
  }

  /** A vote is taken up exactly by an idle actor from a known proposer; one from anybody else is
      answered no at once, counted as failed, and touches no store. */
  lemma UnknownProposerIsRefused(c: Spec, n: Node, vote: Verify)
    requires n.task.Idle?
    ensures var n' := Step(c, n, DoStartVerify(vote));
            && n'.stores == n.stores && n'.log.asked == n.log.asked + [vote]
            && (if vote.proposer in n.validators then
                  && n'.task.Looking? && n'.task.vote == vote
                  && n'.log.verdicts == n.log.verdicts && n'.metrics == n.metrics
                else
                  && n'.task.Idle? && n'.log.verdicts == n.log.verdicts + [Verdict(vote.payload, false)]
                  && n'.metrics == n.metrics.(failedValidations := n.metrics.failedValidations + 1))
  {}

  lemma StepBalances(c: Spec, n: Node, a: Action)
    requires Balanced(n)
    ensures Balanced(Step(c, n, a))
  {
    BuildsStep(c, n, a);
    AnswersStep(c, n, a);
    VotesStep(c, n, a);
    ReportsCounted(c, n, a);
  }

  lemma ReportsCounted(c: Spec, n: Node, a: Action)
    ensures Step(c, n, a).metrics.blocksFinalized - |Step(c, n, a).log.reports| ==
            n.metrics.blocksFinalized - |n.log.reports|
  {}

  ghost predicate SysBalanced(s: Sys) {
    forall i | 0 <= i < |s.nodes| :: Balanced(s.nodes[i])
  }

  lemma {:induction false} RunBalances(c: Spec, env: Consensus, s: Sys, events: seq<Event>)
    requires Legal(c, env, s, events) && SysBalanced(s)
    ensures SysBalanced(Run(c, env, s, events))
    decreases |events|
  {
    if events != [] {
      StepBalances(c, s.nodes[events[0].at], events[0].action);
      RunBalances(c, env, Next(c, s, events[0]), events[1..]);
    }
  }

  /** In every reachable state, proposals handed out are those logged plus those that failed plus the
      one under way, and each logged one answers a proposal of its own, on the parent that one named;
      verifications asked for are those answered, each for its own digest, plus the one under way. */
  lemma ReachableBalanced(c: Spec, env: Consensus, s: Sys, i: nat)
    requires Reachable(c, env, s) && i < |s.nodes|
    ensures Balanced(s.nodes[i])
  {
    var start, events :| Initial(c, start) && Legal(c, env, start, events) && Run(c, env, start, events) == s;
    assert SysBalanced(start);
    RunBalances(c, env, start, events);
  }

  /** In every reachable state an accepted vote was asked by a validator. */
  lemma OnlyValidatorsAreAccepted(c: Spec, env: Consensus, s: Sys, i: nat, k: nat)
    requires Reachable(c, env, s) && i < |s.nodes|
    requires k < |s.nodes[i].log.verdicts| && s.nodes[i].log.verdicts[k].accepted
    ensures k < |s.nodes[i].log.asked| && s.nodes[i].log.asked[k].payload == s.nodes[i].log.verdicts[k].payload
    ensures s.nodes[i].log.asked[k].proposer in s.nodes[i].validators
  {
    ReachableBalanced(c, env, s, i);
  }

  /** Every vote for a block has its record, and every logged proposal is still stored for the
      relay and recorded. */
  lemma NothingIsLost(c: Spec, env: Consensus, s: Sys, i: nat, v: Verdict, d: Hash)
    requires c.Valid() && Reachable(c, env, s) && i < |s.nodes|
    ensures v in s.nodes[i].log.verdicts && v.accepted ==> v.payload in s.nodes[i].stores.blockInfo
    ensures d in s.nodes[i].stores.proposals ==>
              d in s.nodes[i].stores.pendingBlocks && d in s.nodes[i].stores.blockInfo
  {
    ReachableOk(c, env, s);
    assert NodeOk(c, s.world, s.nodes[i]);
  }
}
