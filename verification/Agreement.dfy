/** What holds in every reachable state of the network, whatever consensus does: one content per
    digest, consensus ancestry equal to execution ancestry, and every record backed by the engine. */
module Agreement {
  import opened Basics
  import opened Engine
  import opened Timestamps
  import opened Wire
  import opened Glue
  import opened System

  /** The block hash a consensus digest stands for as a parent. */
  function HashOf(c: Spec, d: Hash): Hash {
    if d == EMPTY then c.GenesisHash() else d
  }

  // ── The invariant ──

  ghost predicate WorldOk(c: Spec, w: World) {
    && c.GenesisHash() in w.built && w.built[c.GenesisHash()] == c.genesis
    && (forall d :: d in w.lineage <==> d in w.built && d != c.GenesisHash())
    && (forall d | d in w.lineage :: d in w.clocks)
    && (forall d | d in w.built :: c.hash(w.built[d]) == d && d != EMPTY)
    && (forall d {:trigger BuiltOn(c, w, d, w.lineage[d])} | d in w.lineage :: BuiltOn(c, w, d, w.lineage[d]))
  }

  /** The block of digest `d` follows the block of its consensus parent `p`. */
  ghost predicate BuiltOn(c: Spec, w: World, d: Hash, p: Hash) {
    && d in w.built && d in w.clocks
    && (p == EMPTY || p in w.lineage)
    && HashOf(c, p) in w.built
    && w.built[d].parentHash == HashOf(c, p)
    && w.built[d].number == w.built[HashOf(c, p)].number + 1
    && w.built[d].timestamp == Max(w.clocks[d] / 1000, w.built[HashOf(c, p)].timestamp)
    && w.built[d].timestamp <= MAX_SECONDS
    && c.executes(w.built[d])
  }

  ghost predicate TreeOk(c: Spec, w: World, tree: Tree) {
    && c.GenesisHash() in tree
    && (forall h | h in tree :: h in w.built && tree[h] == w.built[h])
    && (forall h {:trigger Rooted(c, tree, h)} | h in tree :: Rooted(c, tree, h))
  }

  ghost predicate Rooted(c: Spec, tree: Tree, h: Hash)
    requires h in tree
  {
    h == c.GenesisHash() || tree[h].parentHash in tree
  }

  /** The part of a record that the block determines. */
  predicate Describes(info: BlockInfo, d: Hash, b: Block) {
    && info.hash == d
    && info.number == b.number
    && info.timestamp == b.timestamp
    && info.timestampMillis == ToMillis(b.timestamp)
  }

  ghost predicate InfoOk(c: Spec, info: map<Hash, BlockInfo>, tree: Tree) {
    && EMPTY in info && info[EMPTY] == GenesisInfo(c)
    && (forall d | d in info && d != EMPTY ::
          d in tree && d != c.GenesisHash() && Describes(info[d], d, tree[d]))
  }

  /** The bytes are the encoding of the block built under `d`, which is not genesis. */
  ghost predicate BytesOk(c: Spec, w: World, d: Hash, bytes: seq<Byte>) {
    d in w.lineage && d in w.built && bytes == c.encode(w.built[d])
  }

  ghost predicate BlocksOk(c: Spec, w: World, blocks: map<Hash, seq<Byte>>) {
    forall d | d in blocks :: BytesOk(c, w, d, blocks[d])
  }

  ghost predicate StoresOk(c: Spec, w: World, st: Stores) {
    && TreeOk(c, w, st.tree)
    && InfoOk(c, st.blockInfo, st.tree)
    && BlocksOk(c, w, st.pendingBlocks)
    && BlocksOk(c, w, st.receivedBlocks)
    && st.pendingBlocks.Keys <= st.blockInfo.Keys
    && (forall d | d in st.proposals :: d in st.pendingBlocks)
  }

  ghost predicate FrameOk(c: Spec, w: World, frame: seq<Byte>) {
    Parse(frame).Some? && BytesOk(c, w, Parse(frame).value.0, Parse(frame).value.1)
  }

  ghost predicate NetOk(c: Spec, w: World, net: set<seq<Byte>>) {
    forall frame | frame in net :: FrameOk(c, w, frame)
  }

  /** The block a finished build has in hand: built on the parent of its job. */
  ghost predicate Finished(c: Spec, w: World, info: map<Hash, BlockInfo>, job: Job, b: Block) {
    var d := c.hash(b);
    && job.msg.parent in info
    && d in w.lineage && d in w.built && w.built[d] == b
    && w.lineage[d] == job.msg.parent
    && b.timestamp == job.request.timestamp
  }

  ghost predicate JobOk(info: map<Hash, BlockInfo>, job: Job) {
    job.request == MakeRequest(info, job.msg, job.now)
  }

  ghost predicate TaskOk(c: Spec, w: World, st: Stores, t: Task) {
    match t
    case Idle => true
    case Requested(job) => JobOk(st.blockInfo, job)
    case Asking(job, fc, attempt) =>
      JobOk(st.blockInfo, job) && fc.head == job.request.parentHash && attempt < ATTEMPTS
    case Resolving(job) => JobOk(st.blockInfo, job) && Granted(st.tree, job)
    case Importing(job, b) => Finished(c, w, st.blockInfo, job, b)
    case Recording(job, b) => Finished(c, w, st.blockInfo, job, b) && c.hash(b) in st.tree
    case Storing(job, b) => Finished(c, w, st.blockInfo, job, b) && c.hash(b) in st.blockInfo
    case Answering(job, b) => Finished(c, w, st.blockInfo, job, b) && c.hash(b) in st.pendingBlocks
    case Looking(vote, found) => found.Some? ==> BytesOk(c, w, vote.payload, found.value)
    case Validating(vote, bytes) => BytesOk(c, w, vote.payload, bytes)
    case Noting(vote, meta) =>
      && vote.payload in st.tree && vote.payload in w.lineage
      && meta == MetaOf(vote.payload, st.tree[vote.payload])
  }

  function MetaOf(d: Hash, b: Block): BlockMeta {
    BlockMeta(d, b.number, b.timestamp, ToMillis(b.timestamp))
  }

  /** A payload id was granted: the head is known and the timestamp follows it. */
  ghost predicate Granted(tree: Tree, job: Job) {
    && job.request.parentHash in tree
    && AttributesFollow(job.request.timestamp, tree[job.request.parentHash])
  }

  /** Every answered proposal was built on the parent it was asked for, which was recorded. */
  ghost predicate AnswersOk(w: World, answers: seq<Answer>, st: Stores) {
    forall a | a in answers ::
      && a.digest in w.lineage && w.lineage[a.digest] == a.parent
      && a.parent in st.blockInfo && a.digest in st.proposals
  }

  /** Every digest voted for is recorded, and is not genesis. */
  ghost predicate VerdictsOk(verdicts: seq<Verdict>, st: Stores) {
    forall v | v in verdicts && v.accepted :: v.payload in st.blockInfo && v.payload != EMPTY
  }

  ghost predicate NodeOk(c: Spec, w: World, n: Node) {
    && StoresOk(c, w, n.stores)
    && TaskOk(c, w, n.stores, n.task)
    && AnswersOk(w, n.log.answers, n.stores)
    && VerdictsOk(n.log.verdicts, n.stores)
  }

  ghost predicate SysOk(c: Spec, s: Sys) {
    && WorldOk(c, s.world)
    && NetOk(c, s.world, s.net)
    && forall i | 0 <= i < |s.nodes| :: NodeOk(c, s.world, s.nodes[i])
  }

  // ── It holds initially and every step keeps it ──

  lemma InitialOk(c: Spec, s: Sys)
    requires c.Valid() && Initial(c, s)
    ensures SysOk(c, s)
  {}

  /** One world continues another: nothing built is ever changed. */
  ghost predicate Grown(w: World, w': World) {
    && (forall d | d in w.built :: d in w'.built && w'.built[d] == w.built[d])
    && (forall d | d in w.lineage :: d in w'.lineage && w'.lineage[d] == w.lineage[d])
  }

  lemma GrownKeepsNode(c: Spec, w: World, w': World, n: Node)
    requires NodeOk(c, w, n) && Grown(w, w')
    ensures NodeOk(c, w', n)
  {}

  lemma GrownKeepsNet(c: Spec, w: World, w': World, net: set<seq<Byte>>)
    requires NetOk(c, w, net) && Grown(w, w')
    ensures NetOk(c, w', net)
  {
    forall frame | frame in net
      ensures FrameOk(c, w', frame)
    {
      assert FrameOk(c, w, frame);
    }
  }

  /** The parent of a granted job is recorded, and its record describes the head. */
  lemma GrantedParent(c: Spec, w: World, n: Node, job: Job)
    requires WorldOk(c, w) && NodeOk(c, w, n) && JobOk(n.stores.blockInfo, job) && Granted(n.stores.tree, job)
    ensures job.msg.parent in n.stores.blockInfo
    ensures job.request.parentHash == HashOf(c, job.msg.parent)
    ensures var head := n.stores.tree[job.request.parentHash];
            job.request.timestamp == NextSeconds(job.now, head.timestamp)
            && head.timestamp <= MAX_SECONDS
  {
    var parent := job.msg.parent;
    assert parent in n.stores.blockInfo;
    var head := n.stores.tree[job.request.parentHash];
    assert job.request.timestampMillis == NextMillis(job.now, ToMillis(head.timestamp));
    NextSecondsIsMax(job.now, head.timestamp);
  }

  lemma StillBuiltOn(c: Spec, w: World, w': World, d: Hash)
    requires WorldOk(c, w) && Grown(w, w') && d in w.lineage
    requires d in w'.clocks && w'.clocks[d] == w.clocks[d]
    ensures BuiltOn(c, w', d, w.lineage[d])
  {
    assert BuiltOn(c, w, d, w.lineage[d]);
  }

  /** A block that follows a built one continues the world: if its digest is already there, so
      is the block, on the same consensus parent. */
  lemma WorldGrows(c: Spec, w: World, b: Block, parent: Hash, now: U64)
    requires c.Valid() && WorldOk(c, w) && (parent == EMPTY || parent in w.lineage)
    requires c.hash(b) != EMPTY && (c.hash(b) in w.built ==> w.built[c.hash(b)] == b)
    requires HashOf(c, parent) in w.built && b.parentHash == HashOf(c, parent) && c.executes(b)
    requires b.number == w.built[b.parentHash].number + 1
    requires b.timestamp == Max(now / 1000, w.built[b.parentHash].timestamp) <= MAX_SECONDS
    ensures var d := c.hash(b);
            var w' := World(w.built[d := b], w.lineage[d := parent], w.clocks[d := now]);
            Grown(w, w') && WorldOk(c, w')
  {
    var d := c.hash(b);
    var w' := World(w.built[d := b], w.lineage[d := parent], w.clocks[d := now]);
    assert d != c.GenesisHash();
    assert d in w.lineage ==> BuiltOn(c, w, d, w.lineage[d]);
    assert Grown(w, w');
    assert BuiltOn(c, w', d, parent);
    forall e | e in w.lineage && e != d
      ensures BuiltOn(c, w', e, w.lineage[e])
    {
      StillBuiltOn(c, w, w', e);
    }
  }

  /** A newly built block has its place below the consensus parent of its job. */
  lemma BuildGrows(c: Spec, w: World, n: Node, b: Block)
    requires c.Valid() && WorldOk(c, w) && NodeOk(c, w, n) && n.task.Resolving?
    requires EngineBuilds(c, w, n.stores.tree, n.task.job.request, b)
    ensures var w' := Grow(c, w, n, DoResolve(Some(b)));
            Grown(w, w') && WorldOk(c, w') && Finished(c, w', n.stores.blockInfo, n.task.job, b)
  {
    var job := n.task.job;
    GrantedParent(c, w, n, job);
    NextSecondsIsMax(job.now, n.stores.tree[job.request.parentHash].timestamp);
    WorldGrows(c, w, b, job.msg.parent, job.now);
  }

  /** Importing a built block keeps the tree, and is the only way a block gets in. */
  lemma ImportKeepsTree(c: Spec, w: World, tree: Tree, b: Block, mood: ImportMood)
    requires TreeOk(c, w, tree) && c.hash(b) in w.built && w.built[c.hash(b)] == b
    ensures var tree' := TreeAfterImport(c, tree, b, mood);
            && TreeOk(c, w, tree')
            && (forall h | h in tree :: h in tree' && tree'[h] == tree[h])
            && (Imported(ImportReply(c, tree, b, mood)) ==> c.hash(b) in tree')
  {
    var tree' := TreeAfterImport(c, tree, b, mood);
    forall h | h in tree'
      ensures Rooted(c, tree', h)
    {
      assert h in tree ==> Rooted(c, tree, h);
    }
  }

  /** A step that leaves the stores alone only has to account for where the actor stands. */
  ghost predicate Quiet(c: Spec, w: World, n: Node, n': Node) {
    && n'.stores == n.stores
    && n'.log.answers == n.log.answers
    && VerdictsOk(n'.log.verdicts, n.stores)
    && TaskOk(c, w, n.stores, n'.task)
  }

  lemma StartProposeQuiet(c: Spec, w: World, n: Node, msg: Propose, now: U64)
    requires TaskOk(c, w, n.stores, n.task) && VerdictsOk(n.log.verdicts, n.stores)
    ensures Quiet(c, w, n, StartPropose(n, msg, now))
  {}

  lemma CaptureQuiet(c: Spec, w: World, n: Node)
    requires TaskOk(c, w, n.stores, n.task) && VerdictsOk(n.log.verdicts, n.stores)
    ensures Quiet(c, w, n, Capture(n))
  {}

  lemma AskQuiet(c: Spec, w: World, n: Node, mood: ForkchoiceMood)
    requires TaskOk(c, w, n.stores, n.task) && VerdictsOk(n.log.verdicts, n.stores)
    ensures Quiet(c, w, n, Ask(n, mood))
  {}

  lemma StartVerifyQuiet(c: Spec, w: World, n: Node, vote: Verify)
    requires TaskOk(c, w, n.stores, n.task) && VerdictsOk(n.log.verdicts, n.stores)
    requires BlocksOk(c, w, n.stores.pendingBlocks)
    ensures Quiet(c, w, n, StartVerify(n, vote))
  {}

  lemma LookQuiet(c: Spec, w: World, n: Node)
    requires TaskOk(c, w, n.stores, n.task) && VerdictsOk(n.log.verdicts, n.stores)
    requires BlocksOk(c, w, n.stores.receivedBlocks)
    ensures Quiet(c, w, n, Look(n))
  {}

  lemma ReportQuiet(c: Spec, w: World, n: Node, digest: Hash)
    requires TaskOk(c, w, n.stores, n.task) && VerdictsOk(n.log.verdicts, n.stores)
    ensures Quiet(c, w, n, Report(n, digest))
  {}

  lemma TakeQuiet(c: Spec, w: World, n: Node)
    requires TaskOk(c, w, n.stores, n.task) && VerdictsOk(n.log.verdicts, n.stores)
    ensures Quiet(c, w, n, Take(n))
  {}

  lemma LookupQuiet(c: Spec, w: World, n: Node)
    requires TaskOk(c, w, n.stores, n.task) && VerdictsOk(n.log.verdicts, n.stores)
    ensures Quiet(c, w, n, Lookup(n))
  {}

  lemma UpdateQuiet(c: Spec, w: World, n: Node, mood: ForkchoiceMood)
    requires TaskOk(c, w, n.stores, n.task) && VerdictsOk(n.log.verdicts, n.stores)
    ensures Quiet(c, w, n, UpdateForkchoice(n, mood))
  {}

  lemma SetFinalizedQuiet(c: Spec, w: World, n: Node)
    requires TaskOk(c, w, n.stores, n.task) && VerdictsOk(n.log.verdicts, n.stores)
    ensures Quiet(c, w, n, SetFinalized(n))
  {}

  lemma ResolveOk(c: Spec, w: World, n: Node, built: Option<Block>)
    requires c.Valid() && WorldOk(c, w) && NodeOk(c, w, n)
    requires Builds(n, DoResolve(built)) ==>
               EngineBuilds(c, w, n.stores.tree, n.task.job.request, built.value)
    ensures var w' := Grow(c, w, n, DoResolve(built));
            Grown(w, w') && WorldOk(c, w') && NodeOk(c, w', Resolve(n, built))
  {
    if Builds(n, DoResolve(built)) {
      BuildGrows(c, w, n, built.value);
      GrownKeepsNode(c, w, Grow(c, w, n, DoResolve(built)), n);
    }
  }

  lemma TreeGrowsOk(c: Spec, w: World, st: Stores, b: Block, mood: ImportMood)
    requires StoresOk(c, w, st) && c.hash(b) in w.built && w.built[c.hash(b)] == b
    ensures StoresOk(c, w, st.(tree := TreeAfterImport(c, st.tree, b, mood)))
  {
    ImportKeepsTree(c, w, st.tree, b, mood);
  }

  lemma ImportOk(c: Spec, w: World, n: Node, mood: ImportMood)
    requires NodeOk(c, w, n)
    ensures NodeOk(c, w, Import(c, n, mood))
  {
    if n.task.Importing? {
      ImportKeepsTree(c, w, n.stores.tree, n.task.block, mood);
      TreeGrowsOk(c, w, n.stores, n.task.block, mood);
    }
  }

  lemma RecordOk(c: Spec, w: World, n: Node)
    requires c.Valid() && WorldOk(c, w) && NodeOk(c, w, n)
    ensures NodeOk(c, w, Record(c, n))
  {}

  lemma StoreOk(c: Spec, w: World, n: Node)
    requires c.Valid() && WorldOk(c, w) && NodeOk(c, w, n)
    ensures NodeOk(c, w, Store(c, n))
  {}

  lemma AnswerOk(c: Spec, w: World, n: Node)
    requires c.Valid() && WorldOk(c, w) && NodeOk(c, w, n)
    ensures NodeOk(c, w, AnswerPropose(c, n))
  {}

  /** Validation reports on whatever its bytes decode to: it votes no, or goes on with that block's
      own hash and times, exactly as the engine and the comparison of the two times decide. */
  lemma ValidateReports(c: Spec, n: Node, mood: ImportMood)
    requires n.task.Validating?
    ensures var n', payload, decoded := Validate(c, n, mood), n.task.vote.payload, c.decode(n.task.bytes);
            && n'.stores == n.stores.(tree :=
                 if decoded.Some? then TreeAfterImport(c, n.stores.tree, decoded.value, mood) else n.stores.tree)
            && n'.log.answers == n.log.answers
            && (if && decoded.Some? && ImportReply(c, n.stores.tree, decoded.value, mood) == Some(Valid)
                   && ToMillis(decoded.value.timestamp) / 1000 == decoded.value.timestamp
                then
                  && n'.log.verdicts == n.log.verdicts
                  && n'.task == Noting(n.task.vote, MetaOf(c.hash(decoded.value), decoded.value))
                else
                  n'.task.Idle? && n'.log.verdicts == n.log.verdicts + [Verdict(payload, false)])
  {}

  lemma ValidateOk(c: Spec, w: World, n: Node, mood: ImportMood)
    requires c.Valid() && WorldOk(c, w) && NodeOk(c, w, n)
    ensures NodeOk(c, w, Validate(c, n, mood))
  {
    if n.task.Validating? {
      var b := w.built[n.task.vote.payload];
      assert c.decode(n.task.bytes) == Some(b);
      ValidateReports(c, n, mood);
      ImportKeepsTree(c, w, n.stores.tree, b, mood);
      TreeGrowsOk(c, w, n.stores, b, mood);
    }
  }

  lemma NoteOk(c: Spec, w: World, n: Node)
    requires c.Valid() && WorldOk(c, w) && NodeOk(c, w, n)
    ensures NodeOk(c, w, Note(n))
  {}

  lemma ReceiveOk(c: Spec, w: World, n: Node, data: seq<Byte>)
    requires NodeOk(c, w, n) && FrameOk(c, w, data)
    ensures NodeOk(c, w, Receive(n, data))
  {}

  predicate IsQuiet(a: Action) {
    a.DoStartPropose? || a.DoCapture? || a.DoAsk? || a.DoStartVerify? || a.DoLook?
    || a.DoReport? || a.DoTake? || a.DoLookup? || a.DoUpdate? || a.DoSetFinalized?
  }

  lemma QuietStep(c: Spec, w: World, n: Node, a: Action)
    requires IsQuiet(a) && NodeOk(c, w, n)
    ensures NodeOk(c, w, Step(c, n, a))
  {
    match a
    case DoStartPropose(msg, now) => StartProposeQuiet(c, w, n, msg, now);
    case DoCapture => CaptureQuiet(c, w, n);
    case DoAsk(mood) => AskQuiet(c, w, n, mood);
    case DoStartVerify(vote) => StartVerifyQuiet(c, w, n, vote);
    case DoLook => LookQuiet(c, w, n);
    case DoReport(digest) => ReportQuiet(c, w, n, digest);
    case DoTake => TakeQuiet(c, w, n);
    case DoLookup => LookupQuiet(c, w, n);
    case DoUpdate(mood) => UpdateQuiet(c, w, n, mood);
    case DoSetFinalized => SetFinalizedQuiet(c, w, n);
  }

  lemma StepOk(c: Spec, w: World, n: Node, a: Action)
    requires c.Valid() && WorldOk(c, w) && NodeOk(c, w, n)
    requires Builds(n, a) ==> EngineBuilds(c, w, n.stores.tree, n.task.job.request, a.built.value)
    requires a.DoReceive? ==> FrameOk(c, w, a.data)
    ensures Grown(w, Grow(c, w, n, a)) && WorldOk(c, Grow(c, w, n, a))
    ensures NodeOk(c, Grow(c, w, n, a), Step(c, n, a))
  {
    if a.DoResolve? {
      ResolveOk(c, w, n, a.built);
    } else {
      StandingStep(c, w, n, a);
    }
  }

  /** Steps that build nothing leave the world alone. */
  lemma StandingStep(c: Spec, w: World, n: Node, a: Action)
    requires c.Valid() && WorldOk(c, w) && NodeOk(c, w, n) && !a.DoResolve?
    requires a.DoReceive? ==> FrameOk(c, w, a.data)
    ensures NodeOk(c, w, Step(c, n, a))
  {
    if IsQuiet(a) {
      QuietStep(c, w, n, a);
    } else {
      match a
      case DoImport(mood) => ImportOk(c, w, n, mood);
      case DoRecord => RecordOk(c, w, n);
      case DoStore => StoreOk(c, w, n);
      case DoAnswer => AnswerOk(c, w, n);
      case DoValidate(mood) => ValidateOk(c, w, n, mood);
      case DoNote => NoteOk(c, w, n);
      case DoReceive(data) => ReceiveOk(c, w, n, data);
      case DoBroadcast(_) =>
    }
  }

  lemma SentOk(c: Spec, w: World, n: Node, a: Action)
    requires BlocksOk(c, w, n.stores.pendingBlocks)
    ensures NetOk(c, w, Sent(n, a))
  {
    if Sent(n, a) != {} {
      FramesAreOneFormat(a.digest, n.stores.pendingBlocks[a.digest], []);
    }
  }

  lemma NextOk(c: Spec, env: Consensus, s: Sys, e: Event)
    requires c.Valid() && SysOk(c, s) && Enabled(c, env, s, e)
    ensures Grown(s.world, Next(c, s, e).world) && SysOk(c, Next(c, s, e))
  {
    var n, s' := s.nodes[e.at], Next(c, s, e);
    StepOk(c, s.world, n, e.action);
    forall i | 0 <= i < |s'.nodes|
      ensures NodeOk(c, s'.world, s'.nodes[i])
    {
      if i != e.at {
        GrownKeepsNode(c, s.world, s'.world, s.nodes[i]);
      }
    }
    SentOk(c, s.world, n, e.action);
    GrownKeepsNet(c, s.world, s'.world, s.net + Sent(n, e.action));
  }

  lemma {:induction false} RunOk(c: Spec, env: Consensus, s: Sys, events: seq<Event>)
    requires c.Valid() && SysOk(c, s) && Legal(c, env, s, events)
    ensures SysOk(c, Run(c, env, s, events))
    decreases |events|
  {
    if events != [] {
      NextOk(c, env, s, events[0]);
      RunOk(c, env, Next(c, s, events[0]), events[1..]);
    }
  }

  lemma ReachableOk(c: Spec, env: Consensus, s: Sys)
    requires c.Valid() && Reachable(c, env, s)
    ensures SysOk(c, s)
  {
    var start, events :| Initial(c, start) && Legal(c, env, start, events) && Run(c, env, start, events) == s;
    InitialOk(c, start);
    RunOk(c, env, start, events);
  }
}
