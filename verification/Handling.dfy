/** The running node inside the network: what its methods do to a node with no other task stepping in
    between is a run of the system, so all that holds of reachable states holds of it. */
module Handling {
  import opened Basics
  import opened Engine
  import opened Glue
  import opened System
  import opened Runs
  import opened Replica

  /** A step that neither builds, receives, reports nor hands out is always possible. */
  predicate IsFree(a: Action) {
    !a.DoResolve? && !a.DoReceive? && !a.DoReport? && !a.DoStartPropose?
  }

  lemma StepInSystem(c: Spec, env: Consensus, s: Sys, i: nat, a: Action) returns (s': Sys)
    requires Reachable(c, env, s) && Enabled(c, env, s, Event(i, a))
    ensures Reachable(c, env, s') && |s'.nodes| == |s.nodes| && s'.nodes[i] == Step(c, s.nodes[i], a)
    ensures s'.world == Grow(c, s.world, s.nodes[i], a)
  {
    ReachableNext(c, env, s, Event(i, a));
    s' := Next(c, s, Event(i, a));
  }

  lemma FreeStep(c: Spec, env: Consensus, s: Sys, i: nat, a: Action) returns (s': Sys)
    requires Reachable(c, env, s) && i < |s.nodes| && IsFree(a)
    ensures Reachable(c, env, s') && |s'.nodes| == |s.nodes| && s'.nodes[i] == Step(c, s.nodes[i], a)
    ensures s'.world == s.world
  {
    s' := StepInSystem(c, env, s, i, a);
  }

  lemma {:induction false} AskAllInSystem(c: Spec, env: Consensus, s: Sys, i: nat, moods: seq<ForkchoiceMood>)
    returns (s': Sys)
    requires Reachable(c, env, s) && i < |s.nodes|
    ensures Reachable(c, env, s') && |s'.nodes| == |s.nodes| && s'.nodes[i] == AskAll(s.nodes[i], moods)
    ensures s'.world == s.world
    decreases |moods|
  {
    s' := s;
    if moods != [] {
      s' := AskAllInSystem(c, env, s, i, moods[..|moods| - 1]);
      s' := FreeStep(c, env, s', i, DoAsk(moods[|moods| - 1]));
    }
  }

  /** Asking changes neither the request nor the engine's tree. */
  lemma {:induction false} AskAllKeeps(n: Node, moods: seq<ForkchoiceMood>)
    ensures var n' := AskAll(n, moods);
            n'.stores == n.stores && (n'.task.Resolving? && n.task.Asking? ==> n'.task.job == n.task.job)
            && (n.task.Asking? && n'.task.Asking? ==> n'.task.job == n.task.job)
            && (n.task.Asking? ==> n'.task.Asking? || n'.task.Resolving? || n'.task.Idle?)
            && (!n.task.Asking? ==> n' == n)
    decreases |moods|
  {
    if moods != [] {
      AskAllKeeps(n, moods[..|moods| - 1]);
    }
  }

  lemma StartInSystem(c: Spec, env: Consensus, s: Sys, i: nat, msg: Propose, now: U64, moods: seq<ForkchoiceMood>)
    returns (s': Sys)
    requires Reachable(c, env, s) && i < |s.nodes| && s.nodes[i].task.Idle?
    requires Ordered(env, s, s.nodes[i], DoStartPropose(msg, now))
    ensures Reachable(c, env, s') && |s'.nodes| == |s.nodes| && s'.world == s.world
    ensures s'.nodes[i] == AskAll(Capture(StartPropose(s.nodes[i], msg, now)), moods)
  {
    s' := StepInSystem(c, env, s, i, DoStartPropose(msg, now));
    s' := FreeStep(c, env, s', i, DoCapture);
    s' := AskAllInSystem(c, env, s', i, moods);
  }

  lemma FinishInSystem(c: Spec, env: Consensus, s: Sys, i: nat, built: Option<Block>, mood: ImportMood)
    returns (s': Sys)
    requires Reachable(c, env, s) && Enabled(c, env, s, Event(i, DoResolve(built)))
    ensures Reachable(c, env, s') && |s'.nodes| == |s.nodes|
    ensures s'.nodes[i] == AnswerPropose(c, Store(c, Record(c, Import(c, Resolve(s.nodes[i], built), mood))))
    ensures s'.world == Grow(c, s.world, s.nodes[i], DoResolve(built))
  {
    s' := StepInSystem(c, env, s, i, DoResolve(built));
    s' := FreeStep(c, env, s', i, DoImport(mood));
    s' := KeepInSystem(c, env, s', i);
  }

  lemma KeepInSystem(c: Spec, env: Consensus, s: Sys, i: nat) returns (s': Sys)
    requires Reachable(c, env, s) && i < |s.nodes|
    ensures Reachable(c, env, s') && |s'.nodes| == |s.nodes|
    ensures s'.nodes[i] == AnswerPropose(c, Store(c, Record(c, s.nodes[i])))
    ensures s'.world == s.world
  {
    s' := FreeStep(c, env, s, i, DoRecord);
    s' := FreeStep(c, env, s', i, DoStore);
    s' := FreeStep(c, env, s', i, DoAnswer);
  }

  lemma VerifyInSystem(c: Spec, env: Consensus, s: Sys, i: nat, vote: Verify, mood: ImportMood) returns (s': Sys)
    requires Reachable(c, env, s) && i < |s.nodes|
    ensures Reachable(c, env, s') && |s'.nodes| == |s.nodes| && s'.nodes[i] == VerifyRun(c, s.nodes[i], vote, mood)
  {
    s' := FreeStep(c, env, s, i, DoStartVerify(vote));
    s' := FreeStep(c, env, s', i, DoLook);
    s' := JudgeInSystem(c, env, s', i, mood);
  }

  lemma JudgeInSystem(c: Spec, env: Consensus, s: Sys, i: nat, mood: ImportMood) returns (s': Sys)
    requires Reachable(c, env, s) && i < |s.nodes|
    ensures Reachable(c, env, s') && |s'.nodes| == |s.nodes| && s'.nodes[i] == Note(Validate(c, s.nodes[i], mood))
  {
    s' := FreeStep(c, env, s, i, DoValidate(mood));
    s' := FreeStep(c, env, s', i, DoNote);
  }

  /** What the environment owes a message: a proposal handed out in order, and a block the engine can
      build for its request. */
  ghost predicate Serves(c: Spec, env: Consensus, s: Sys, n: Node, m: Message) {
    m.ProposeMessage? ==>
      && Ordered(env, s, n, DoStartPropose(m.propose, m.now))
      && (m.env.built.Some? ==>
            var request := MakeRequest(n.stores.blockInfo, m.propose, m.now);
            EngineBuilds(c, s.world, n.stores.tree, request, m.env.built.value))
  }

  /** Handling a message takes an idle node of any reachable state to where a run takes it. */
  lemma MessageInSystem(c: Spec, env: Consensus, s: Sys, i: nat, m: Message) returns (s': Sys)
    requires Reachable(c, env, s) && i < |s.nodes| && s.nodes[i].task.Idle? && Serves(c, env, s, s.nodes[i], m)
    ensures Reachable(c, env, s') && |s'.nodes| == |s.nodes| && s'.nodes[i] == HandleRun(c, s.nodes[i], m)
  {
    match m
    case ProposeMessage(msg, now, build) =>
      s' := StartInSystem(c, env, s, i, msg, now, build.moods);
      AskAllKeeps(Capture(StartPropose(s.nodes[i], msg, now)), build.moods);
      s' := FinishInSystem(c, env, s', i, build.built, build.import_);
    case VerifyMessage(vote, mood) =>
      s' := VerifyInSystem(c, env, s, i, vote, mood);
    case BroadcastMessage(digest) =>
      s' := s;
  }

  lemma LookupInSystem(c: Spec, env: Consensus, s: Sys, i: nat) returns (s': Sys)
    requires Reachable(c, env, s) && i < |s.nodes|
    ensures Reachable(c, env, s') && |s'.nodes| == |s.nodes| && s'.nodes[i] == Lookup(Take(s.nodes[i]))
    ensures s'.world == s.world
  {
    s' := FreeStep(c, env, s, i, DoTake);
    s' := FreeStep(c, env, s', i, DoLookup);
  }

  lemma ApplyInSystem(c: Spec, env: Consensus, s: Sys, i: nat, mood: ForkchoiceMood) returns (s': Sys)
    requires Reachable(c, env, s) && i < |s.nodes|
    ensures Reachable(c, env, s') && |s'.nodes| == |s.nodes|
    ensures s'.nodes[i] == SetFinalized(UpdateForkchoice(s.nodes[i], mood))
    ensures s'.world == s.world
  {
    s' := FreeStep(c, env, s, i, DoUpdate(mood));
    s' := FreeStep(c, env, s', i, DoSetFinalized);
  }

  /** The same of draining the finalizer's channel. */
  lemma {:induction false} DrainInSystem(c: Spec, env: Consensus, s: Sys, i: nat, moods: seq<ForkchoiceMood>)
    returns (s': Sys)
    requires Reachable(c, env, s) && i < |s.nodes|
    ensures Reachable(c, env, s') && |s'.nodes| == |s.nodes| && s'.nodes[i] == FinalizeAll(s.nodes[i], moods)
    ensures s'.world == s.world
    decreases |moods|
  {
    s' := s;
    if moods != [] {
      s' := DrainInSystem(c, env, s, i, moods[..|moods| - 1]);
      s' := LookupInSystem(c, env, s', i);
      s' := ApplyInSystem(c, env, s', i, moods[|moods| - 1]);
    }
  }

  /** And of receiving frames that were sent. */
  lemma {:induction false} ReceiptInSystem(c: Spec, env: Consensus, s: Sys, i: nat, frames: seq<seq<Byte>>)
    returns (s': Sys)
    requires Reachable(c, env, s) && i < |s.nodes| && forall k | 0 <= k < |frames| :: frames[k] in s.net
    ensures Reachable(c, env, s') && |s'.nodes| == |s.nodes| && s'.nodes[i] == ReceiveAll(s.nodes[i], frames)
    ensures s.net <= s'.net
    decreases |frames|
  {
    s' := s;
    if frames != [] {
      var last := |frames| - 1;
      s' := ReceiptInSystem(c, env, s, i, frames[..last]);
      var e := Event(i, DoReceive(frames[last]));
      ReachableNext(c, env, s', e);
      s' := Next(c, s', e);
    }
  }

  // ── What a mailbox leads to ──

  /** The actor takes every message up: it is idle again after each, has been handed the inbox's
      proposals and asked its votes, in order, and has answered each vote. */
  lemma {:induction false} InboxIsHandled(c: Spec, n: Node, inbox: seq<Message>)
    requires n.task.Idle? && forall m | m in inbox && m.ProposeMessage? :: |m.env.moods| == ATTEMPTS
    ensures var n' := HandleAll(c, n, inbox);
            && n'.task.Idle?
            && n'.log.handed == n.log.handed + ProposalsOf(inbox)
            && n'.log.asked == n.log.asked + VotesOf(inbox)
            && |n'.log.verdicts| == |n.log.verdicts| + |VotesOf(inbox)|
    decreases |inbox|
  {
    if inbox != [] {
      var last := |inbox| - 1;
      InboxIsHandled(c, n, inbox[..last]);
      MessageIsHandled(c, HandleAll(c, n, inbox[..last]), inbox[last]);
    }
  }

  lemma MessageIsHandled(c: Spec, n: Node, m: Message)
    requires n.task.Idle? && (m.ProposeMessage? ==> |m.env.moods| == ATTEMPTS)
    ensures var n' := HandleRun(c, n, m);
            && n'.task.Idle?
            && n'.log.handed == n.log.handed + (if m.ProposeMessage? then [m.propose] else [])
            && n'.log.asked == n.log.asked + (if m.VerifyMessage? then [m.verify] else [])
            && |n'.log.verdicts| == |n.log.verdicts| + (if m.VerifyMessage? then 1 else 0)
  {
    match m
    case ProposeMessage(msg, now, build) => ProposalIsHandled(c, n, msg, now, build);
    case VerifyMessage(vote, mood) => VoteIsHandled(c, Look(StartVerify(n, vote)), mood);
    case BroadcastMessage(digest) =>
  }

  lemma ProposalIsHandled(c: Spec, n: Node, msg: Propose, now: U64, build: BuildEnv)
    requires n.task.Idle? && |build.moods| == ATTEMPTS
    ensures var n' := ProposeRun(c, n, msg, now, build);
            && n'.task.Idle? && n'.log.handed == n.log.handed + [msg]
            && n'.log.asked == n.log.asked && n'.log.verdicts == n.log.verdicts
  {
    var asking := Capture(StartPropose(n, msg, now));
    AskAllEnds(asking, build.moods);
    BuildEnds(c, AskAll(asking, build.moods), build);
  }

  lemma AskAllEnds(n: Node, moods: seq<ForkchoiceMood>)
    requires n.task.Asking? && n.task.attempt == 0 && |moods| == ATTEMPTS
    ensures var n' := AskAll(n, moods);
            && (n'.task.Idle? || n'.task.Resolving?) && n'.log.handed == n.log.handed
            && n'.log.asked == n.log.asked && n'.log.verdicts == n.log.verdicts
  {
    if WellFormed(n.stores.tree, n.task.fc)
       && AttributesFollow(n.task.job.request.timestamp, n.stores.tree[n.task.fc.head]) {
      AskAllOutcome(n, moods);
    } else {
      AskAllRefused(n, moods);
    }
  }

  lemma BuildEnds(c: Spec, n: Node, build: BuildEnv)
    requires n.task.Idle? || n.task.Resolving?
    ensures var n' := AnswerPropose(c, Store(c, Record(c, Import(c, Resolve(n, build.built), build.import_))));
            && n'.task.Idle? && n'.log.handed == n.log.handed
            && n'.log.asked == n.log.asked && n'.log.verdicts == n.log.verdicts
  {}

  lemma VoteIsHandled(c: Spec, n: Node, mood: ImportMood)
    requires n.task.Idle? || n.task.Validating?
    ensures var n' := Note(Validate(c, n, mood));
            && n'.task.Idle? && n'.log.handed == n.log.handed && n'.log.asked == n.log.asked
            && |n'.log.verdicts| == |n.log.verdicts| + (if n.task.Validating? then 1 else 0)
  {
    if n.task.Validating? {
      match Glue.ValidateBlock(c, n.stores.tree, n.task.bytes, mood)
      case ValidBlock(meta) =>
      case InvalidBlock =>
      case ValidationError =>
    }
  }
}
