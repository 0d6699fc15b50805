/** What the invariant of the network means for a reader of its states: agreement between nodes,
    one ancestry seen from both sides, records backed by the engine, and the closed form of time. */
module Lineage {
  import opened Basics
  import opened Ancestry
  import opened Engine
  import opened Timestamps
  import opened Wire
  import opened Glue
  import opened System
  import opened Runs
  import opened Agreement

  // ── One content per digest ──

  /** In every reachable state, whatever any two nodes store or have in flight under a digest is
      the same bytes, and they are the encoding of the one block with that hash. */
  lemma StoredBlocksAgree(c: Spec, env: Consensus, s: Sys, i: nat, j: nat, d: Hash)
    requires c.Valid() && Reachable(c, env, s) && i < |s.nodes| && j < |s.nodes|
    ensures var a, b := s.nodes[i].stores, s.nodes[j].stores;
            && (d in a.pendingBlocks && d in b.receivedBlocks ==> a.pendingBlocks[d] == b.receivedBlocks[d])
            && (d in a.pendingBlocks && d in b.pendingBlocks ==> a.pendingBlocks[d] == b.pendingBlocks[d])
            && (d in a.receivedBlocks && d in b.receivedBlocks ==> a.receivedBlocks[d] == b.receivedBlocks[d])
            && (d in a.pendingBlocks ==> IsEncodingOf(c, d, a.pendingBlocks[d]))
            && (d in a.receivedBlocks ==> IsEncodingOf(c, d, a.receivedBlocks[d]))
    ensures forall frame | frame in s.net :: Parse(frame).Some?
              && IsEncodingOf(c, Parse(frame).value.0, Parse(frame).value.1)
              && (Parse(frame).value.0 == d && d in s.nodes[i].stores.pendingBlocks ==>
                    Parse(frame).value.1 == s.nodes[i].stores.pendingBlocks[d])
  {
    ReachableOk(c, env, s);
    assert NodeOk(c, s.world, s.nodes[i]) && NodeOk(c, s.world, s.nodes[j]);
    forall frame | frame in s.net
      ensures FrameOk(c, s.world, frame)
    {}
  }

  /** The bytes decode to a block whose hash is the digest, and are that block's encoding. */
  ghost predicate IsEncodingOf(c: Spec, d: Hash, bytes: seq<Byte>) {
    c.decode(bytes).Some? && c.hash(c.decode(bytes).value) == d && bytes == c.encode(c.decode(bytes).value)
  }

  /** A record says what the world's block says. */
  lemma RecordDescribesBlock(c: Spec, w: World, n: Node, d: Hash)
    requires c.Valid() && WorldOk(c, w) && NodeOk(c, w, n) && d in n.stores.blockInfo
    ensures Known(w, d) && HashOf(c, d) in w.built && HashOf(c, d) in n.stores.tree
    ensures Describes(n.stores.blockInfo[d], HashOf(c, d), w.built[HashOf(c, d)])
  {}

  /** Any two nodes' records of a digest agree on all that the block determines: they name the
      digest itself as the hash, or are the genesis record. */
  lemma RecordsAgree(c: Spec, env: Consensus, s: Sys, i: nat, j: nat, d: Hash)
    requires c.Valid() && Reachable(c, env, s) && i < |s.nodes| && j < |s.nodes|
    requires d in s.nodes[i].stores.blockInfo && d in s.nodes[j].stores.blockInfo
    ensures SameContent(s.nodes[i].stores.blockInfo[d], s.nodes[j].stores.blockInfo[d])
    ensures s.nodes[i].stores.blockInfo[d].hash == HashOf(c, d)
    ensures d == EMPTY ==> s.nodes[i].stores.blockInfo[d] == GenesisInfo(c)
  {
    ReachableOk(c, env, s);
    RecordDescribesBlock(c, s.world, s.nodes[i], d);
    RecordDescribesBlock(c, s.world, s.nodes[j], d);
  }

  /** No step of any node forgets a record or changes that part of it, not even by overwriting. */
  lemma RecordsPersist(c: Spec, env: Consensus, s: Sys, e: Event, i: nat, d: Hash)
    requires c.Valid() && Reachable(c, env, s) && Enabled(c, env, s, e)
    requires i < |s.nodes| && d in s.nodes[i].stores.blockInfo
    ensures d in Next(c, s, e).nodes[i].stores.blockInfo
    ensures SameContent(s.nodes[i].stores.blockInfo[d], Next(c, s, e).nodes[i].stores.blockInfo[d])
  {
    StepKeepsMaps(c, s.nodes[e.at], e.action);
    ReachableNext(c, env, s, e);
    RecordedContent(c, env, s, i, d);
    RecordedContent(c, env, Next(c, s, e), i, d);
    BuiltStays(c, env, s, e, HashOf(c, d));
  }

  lemma RecordedContent(c: Spec, env: Consensus, s: Sys, i: nat, d: Hash)
    requires c.Valid() && Reachable(c, env, s) && i < |s.nodes| && d in s.nodes[i].stores.blockInfo
    ensures HashOf(c, d) in s.world.built
    ensures Describes(s.nodes[i].stores.blockInfo[d], HashOf(c, d), s.world.built[HashOf(c, d)])
  {
    ReachableOk(c, env, s);
    RecordDescribesBlock(c, s.world, s.nodes[i], d);
  }

  lemma BuiltStays(c: Spec, env: Consensus, s: Sys, e: Event, h: Hash)
    requires c.Valid() && Reachable(c, env, s) && Enabled(c, env, s, e) && h in s.world.built
    ensures h in Next(c, s, e).world.built && Next(c, s, e).world.built[h] == s.world.built[h]
  {
    ReachableOk(c, env, s);
    NextOk(c, env, s, e);
  }

  predicate SameContent(a: BlockInfo, b: BlockInfo) {
    a.number == b.number && a.hash == b.hash && a.timestamp == b.timestamp && a.timestampMillis == b.timestampMillis
  }

  // ── One ancestry ──

  ghost predicate Known(w: World, d: Hash) {
    d == EMPTY || d in w.lineage
  }

  /** The ancestors of a digest in consensus are the ancestors of its block in execution, step by
      step. */
  lemma {:induction false} UpAgrees(c: Spec, w: World, d: Hash, k: nat)
    requires c.Valid() && WorldOk(c, w) && Known(w, d)
    ensures var up := Up(w.lineage, d, k);
            && (up.Some? ==> Known(w, up.value) && HashOf(c, up.value) in w.built)
            && Up(ParentsOf(c, w.built), HashOf(c, d), k) == if up.Some? then Some(HashOf(c, up.value)) else None
    decreases k
  {
    if d in w.lineage {
      assert BuiltOn(c, w, d, w.lineage[d]);
      if k > 0 {
        UpAgrees(c, w, w.lineage[d], k - 1);
      }
    }
  }

  lemma HashOfInjective(c: Spec, w: World, a: Hash, b: Hash)
    requires WorldOk(c, w) && Known(w, a) && Known(w, b)
    ensures HashOf(c, a) == HashOf(c, b) <==> a == b
  {}

  lemma AncestryCoincides(c: Spec, w: World, a: Hash, d: Hash)
    requires c.Valid() && WorldOk(c, w) && Known(w, a) && Known(w, d)
    ensures Descends(w.lineage, a, d) <==> Descends(ParentsOf(c, w.built), HashOf(c, a), HashOf(c, d))
  {
    if Descends(w.lineage, a, d) {
      var k: nat :| Up(w.lineage, d, k) == Some(a);
      UpAgrees(c, w, d, k);
    }
    if Descends(ParentsOf(c, w.built), HashOf(c, a), HashOf(c, d)) {
      var k: nat :| Up(ParentsOf(c, w.built), HashOf(c, d), k) == Some(HashOf(c, a));
      UpAgrees(c, w, d, k);
      HashOfInjective(c, w, a, Up(w.lineage, d, k).value);
    }
  }

  /** The same, in the words of a reader of reachable states: consensus ancestry is execution
      ancestry. */
  lemma OneAncestry(c: Spec, env: Consensus, s: Sys, a: Hash, d: Hash)
    requires c.Valid() && Reachable(c, env, s) && Known(s.world, a) && Known(s.world, d)
    ensures Descends(s.world.lineage, a, d) <==>
            Descends(ParentsOf(c, s.world.built), HashOf(c, a), HashOf(c, d))
  {
    ReachableOk(c, env, s);
    AncestryCoincides(c, s.world, a, d);
  }

  /** Numbers count the steps of consensus ancestry, down to genesis at zero. */
  lemma {:induction false} NumbersAreDepths(c: Spec, w: World, d: Hash, k: nat)
    requires c.Valid() && WorldOk(c, w) && Known(w, d)
    ensures HashOf(c, d) in w.built
    ensures Up(w.lineage, d, k).Some? <==> k <= w.built[HashOf(c, d)].number
    ensures Up(w.lineage, d, k).Some? ==>
              var a := Up(w.lineage, d, k).value;
              Known(w, a) && HashOf(c, a) in w.built
              && w.built[HashOf(c, d)].number == w.built[HashOf(c, a)].number + k
              && (a == EMPTY <==> k == w.built[HashOf(c, d)].number)
    decreases k
  {
    if d in w.lineage {
      assert BuiltOn(c, w, d, w.lineage[d]);
      if k > 0 {
        NumbersAreDepths(c, w, w.lineage[d], k - 1);
      }
    }
  }

  /** Every digest a propose was ever answered with, on consensus parent `parent`: its block's
      parent is that parent (genesis for EMPTY), consensus ancestry among answered digests is
      execution ancestry, and the recorded number is the depth. EMPTY is never an answer. */
  lemma AnswersFollowConsensus(c: Spec, env: Consensus, s: Sys, i: nat, a: Answer, b: Hash)
    requires c.Valid() && Reachable(c, env, s) && i < |s.nodes| && a in s.nodes[i].log.answers
    requires Known(s.world, b)
    ensures var w, n := s.world, s.nodes[i].stores;
            && a.digest in w.built && c.hash(w.built[a.digest]) == a.digest && a.digest != EMPTY
            && w.built[a.digest].parentHash == (if a.parent == EMPTY then c.GenesisHash() else a.parent)
            && (Descends(w.lineage, b, a.digest) <==> Descends(ParentsOf(c, w.built), HashOf(c, b), a.digest))
            && a.parent in n.blockInfo && a.digest in n.blockInfo && a.digest in n.pendingBlocks
            && Up(w.lineage, a.digest, 1) == Some(a.parent)
            && Up(w.lineage, a.digest, n.blockInfo[a.digest].number) == Some(EMPTY)
  {
    ReachableOk(c, env, s);
    var w, n := s.world, s.nodes[i];
    assert NodeOk(c, w, n);
    assert BuiltOn(c, w, a.digest, w.lineage[a.digest]);
    AncestryCoincides(c, w, b, a.digest);
    NumbersAreDepths(c, w, a.digest, n.stores.blockInfo[a.digest].number);
    assert Up(w.lineage, a.parent, 0) == Some(a.parent);
  }

  // ── Import before record ──

  lemma {:induction false} TreeReachesGenesis(c: Spec, w: World, tree: Tree, d: Hash, k: nat)
    requires c.Valid() && WorldOk(c, w) && TreeOk(c, w, tree) && Known(w, d) && HashOf(c, d) in tree
    requires k <= tree[HashOf(c, d)].number
    ensures Up(ParentsOf(c, tree), HashOf(c, d), k) == Up(ParentsOf(c, w.built), HashOf(c, d), k)
    ensures Up(ParentsOf(c, tree), HashOf(c, d), k).Some?
    ensures Up(ParentsOf(c, tree), HashOf(c, d), k).value in tree
    decreases k
  {
    if d in w.lineage {
      assert BuiltOn(c, w, d, w.lineage[d]) && Rooted(c, tree, d);
      if k > 0 {
        TreeReachesGenesis(c, w, tree, w.lineage[d], k - 1);
      }
    }
  }

  /** Every recorded digest names a block in the node's own tree, with every ancestor back to
      genesis; so a lookup that succeeds never finds a block the engine does not know. */
  lemma ImportedBeforeRecorded(c: Spec, env: Consensus, s: Sys, i: nat, d: Hash, k: nat)
    requires c.Valid() && Reachable(c, env, s) && i < |s.nodes|
    requires d in s.nodes[i].stores.blockInfo && k <= s.nodes[i].stores.blockInfo[d].number
    ensures var n, info := s.nodes[i].stores, s.nodes[i].stores.blockInfo[d];
            && info.hash in n.tree
            && Up(ParentsOf(c, n.tree), info.hash, k).Some?
            && Up(ParentsOf(c, n.tree), info.hash, k).value in n.tree
            && (k == info.number ==> Up(ParentsOf(c, n.tree), info.hash, k) == Some(c.GenesisHash()))
            && ForkchoiceUpdated(n.tree, Forkchoice(info.hash, info.hash, info.hash), None, Ready) ==
                 Updated(true, false)
  {
    ReachableOk(c, env, s);
    var w, tree := s.world, s.nodes[i].stores.tree;
    RecordDescribesBlock(c, w, s.nodes[i], d);
    TreeReachesGenesis(c, w, tree, d, k);
    UpAgrees(c, w, d, k);
    NumbersAreDepths(c, w, d, k);
  }

  // ── Time ──

  /** The clock readings on the path from genesis to `d`. */
  ghost function PathClocks(c: Spec, w: World, d: Hash): seq<U64>
    requires c.Valid() && WorldOk(c, w) && Known(w, d) && HashOf(c, d) in w.built
    decreases w.built[HashOf(c, d)].number
  {
    if d == EMPTY then []
    else
      assert BuiltOn(c, w, d, w.lineage[d]);
      PathClocks(c, w, w.lineage[d]) + [w.clocks[d]]
  }

  /** Along every path in a reachable state, the block's seconds are what the rule yields for the
      clocks on that path. If anything was built on genesis at all, genesis time fits in
      milliseconds, so no saturating operation on the way ever saturated. */
  lemma {:induction false} PathTime(c: Spec, w: World, d: Hash)
    requires c.Valid() && WorldOk(c, w) && d in w.lineage
    ensures c.genesis.timestamp <= w.built[d].timestamp <= MAX_SECONDS
    ensures w.built[d].timestamp == SecondsAfter(c.genesis.timestamp, PathClocks(c, w, d))
    ensures |PathClocks(c, w, d)| == w.built[d].number
    decreases w.built[d].number
  {
    var p := w.lineage[d];
    assert BuiltOn(c, w, d, p);
    var clocks := PathClocks(c, w, d);
    assert clocks[..|clocks| - 1] == PathClocks(c, w, p);
    if p != EMPTY {
      assert BuiltOn(c, w, p, w.lineage[p]);
      PathTime(c, w, p);
    }
    NextSecondsIsMax(w.clocks[d], w.built[HashOf(c, p)].timestamp);
  }

  /** Closed form: a block's seconds are the largest of the genesis seconds and the floored clocks
      of the proposals on its path, so chain time never runs ahead of all of them. */
  lemma TimeIsLargestClock(c: Spec, w: World, d: Hash)
    requires c.Valid() && WorldOk(c, w) && d in w.lineage
    ensures var t, clocks := w.built[d].timestamp, PathClocks(c, w, d);
            && |clocks| == w.built[d].number
            && t >= c.genesis.timestamp && (forall j | 0 <= j < |clocks| :: t >= clocks[j] / 1000)
            && (t == c.genesis.timestamp || exists j | 0 <= j < |clocks| :: t == clocks[j] / 1000)
            && ToMillis(t) == 1000 * t < U64_MAX
  {
    PathTime(c, w, d);
    SecondsClosedForm(c.genesis.timestamp, PathClocks(c, w, d));
  }

  /** The same of every record of every node in every reachable state. */
  lemma RecordedTimeIsLargestClock(c: Spec, env: Consensus, s: Sys, i: nat, d: Hash)
    requires c.Valid() && Reachable(c, env, s) && i < |s.nodes|
    requires d in s.nodes[i].stores.blockInfo && d != EMPTY
    ensures WorldOk(c, s.world) && d in s.world.lineage
    ensures var info, clocks := s.nodes[i].stores.blockInfo[d], PathClocks(c, s.world, d);
            && |clocks| == info.number
            && info.timestamp >= c.genesis.timestamp
            && (forall j | 0 <= j < |clocks| :: info.timestamp >= clocks[j] / 1000)
            && (info.timestamp == c.genesis.timestamp
                || exists j | 0 <= j < |clocks| :: info.timestamp == clocks[j] / 1000)
            && info.timestampMillis == 1000 * info.timestamp < U64_MAX
  {
    ReachableOk(c, env, s);
    RecordDescribesBlock(c, s.world, s.nodes[i], d);
    TimeIsLargestClock(c, s.world, d);
  }
}
