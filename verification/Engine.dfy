/** The execution engine, reduced to its block tree and the three calls Allegro makes on it: the
    Engine API of the Paris specification with Allegro's relaxed timestamp checks. What the engine
    decides on grounds outside the tree arrives as a mood, chosen by the environment. */
module Engine {
  import opened Basics
  import opened Ancestry

  /** A sealed Ethereum block: the fields the glue reads, and the rest as an uninterpreted body. */
  datatype Block = Block(parentHash: Hash, number: nat, timestamp: U64, body: seq<Byte>)

  /** What every node of one network shares: the block codec, the header hash, the outcome of
      executing a block, and genesis. */
  datatype Spec = Spec(
    hash: Block -> Hash,
    encode: Block -> seq<Byte>,
    decode: seq<Byte> -> Option<Block>,
    executes: Block -> bool,
    genesis: Block,
    genesisKey: Key)
  {
    /** No assumption about collisions: the system states that one for the blocks of a run. */
    ghost predicate Valid() {
      && (forall b: Block :: decode(encode(b)) == Some(b))
      && hash(genesis) != EMPTY
      && genesis.number == 0
    }

    function GenesisHash(): Hash {
      hash(genesis)
    }
  }

  type Tree = map<Hash, Block>

  datatype Forkchoice = Forkchoice(head: Hash, safe: Hash, finalized: Hash)

  datatype ForkchoiceMood = Ready | Lagging | Unreachable
  datatype ForkchoiceReply = ForkchoiceError | Updated(valid: bool, payloadId: bool)

  datatype ImportMood = Immediate | Deferred | Broken
  datatype ImportStatus = Valid | Accepted | Invalid | Syncing

  /** The parent pointers of the tree; genesis has none. */
  function ParentsOf(c: Spec, tree: Tree): Parents {
    map h | h in tree && h != c.GenesisHash() :: tree[h].parentHash
  }

  /** Walks down from `h` at most `steps` blocks in search of `a`. */
  predicate OnChain(tree: Tree, a: Hash, h: Hash, steps: nat)
    decreases steps
  {
    h == a || (steps > 0 && h in tree && OnChain(tree, a, tree[h].parentHash, steps - 1))
  }

  /** The state names a chain: safe and finalized lie on the way down from the head. */
  predicate WellFormed(tree: Tree, fc: Forkchoice) {
    && fc.head in tree
    && OnChain(tree, fc.safe, fc.head, tree[fc.head].number)
    && OnChain(tree, fc.finalized, fc.head, tree[fc.head].number)
  }

  predicate AttributesFollow(timestamp: U64, head: Block) {
    !(timestamp < head.timestamp)
  }

  predicate FollowsParent(b: Block, parent: Block) {
    b.number == parent.number + 1 && !(b.timestamp < parent.timestamp)
  }

  function ForkchoiceUpdated(tree: Tree, fc: Forkchoice, attributes: Option<U64>, mood: ForkchoiceMood)
    : ForkchoiceReply
  {
    if mood.Unreachable? then ForkchoiceError
    else if fc.head !in tree then Updated(false, false)
    else if !WellFormed(tree, fc) then ForkchoiceError
    else if attributes.None? then Updated(true, false)
    else if !AttributesFollow(attributes.value, tree[fc.head]) then ForkchoiceError
    else Updated(true, mood.Ready?)
  }

  function ImportReply(c: Spec, tree: Tree, b: Block, mood: ImportMood): Option<ImportStatus> {
    if mood.Broken? then None
    else if b.parentHash !in tree then Some(Syncing)
    else if !FollowsParent(b, tree[b.parentHash]) || !c.executes(b) then Some(Invalid)
    else Some(if mood.Deferred? then Accepted else Valid)
  }

  predicate Imported(reply: Option<ImportStatus>) {
    reply == Some(Valid) || reply == Some(Accepted)
  }

  function TreeAfterImport(c: Spec, tree: Tree, b: Block, mood: ImportMood): Tree {
    if Imported(ImportReply(c, tree, b, mood)) then tree[c.hash(b) := b] else tree
  }

  /** The handle Allegro holds; the only state is the tree. */
  class ExecutionEngine {
    const spec: Spec
    var tree: Tree

    constructor (spec: Spec)
      ensures this.spec == spec && tree == map[spec.GenesisHash() := spec.genesis]
    {
      this.spec := spec;
      tree := map[spec.GenesisHash() := spec.genesis];
    }

    /** A payload id is given exactly by a ready engine, for attributes, on a state that names a
        chain whose head is no later than them; the status is valid exactly on such a state whose
        attributes, if any, are no earlier than its head. An unknown head gives neither. */
    method ForkChoiceUpdated(fc: Forkchoice, attributes: Option<U64>, mood: ForkchoiceMood)
      returns (reply: ForkchoiceReply)
      ensures reply == ForkchoiceUpdated(tree, fc, attributes, mood)
      ensures reply.Updated? && reply.payloadId <==>
              && mood.Ready? && attributes.Some? && fc.head in tree
              && OnChain(tree, fc.safe, fc.head, tree[fc.head].number)
              && OnChain(tree, fc.finalized, fc.head, tree[fc.head].number)
              && attributes.value >= tree[fc.head].timestamp
      ensures reply.Updated? && reply.valid <==>
              && !mood.Unreachable? && fc.head in tree
              && OnChain(tree, fc.safe, fc.head, tree[fc.head].number)
              && OnChain(tree, fc.finalized, fc.head, tree[fc.head].number)
              && (attributes.Some? ==> attributes.value >= tree[fc.head].timestamp)
    {
      if mood.Unreachable? {
        return ForkchoiceError;
      }
      if fc.head !in tree {
        return Updated(false, false);
      }
      var steps := tree[fc.head].number;
      var named := OnChain(tree, fc.safe, fc.head, steps) && OnChain(tree, fc.finalized, fc.head, steps);
      if !named || (attributes.Some? && attributes.value < tree[fc.head].timestamp) {
        return ForkchoiceError;
      }
      reply := Updated(true, attributes.Some? && mood.Ready?);
    }

    /** A block is taken in exactly if its parent is known, its number is the next, its timestamp
        is not before the parent's and it executes; then it is the only change to the tree. */
    method NewPayload(b: Block, mood: ImportMood) returns (reply: Option<ImportStatus>)
      modifies this
      ensures reply == ImportReply(spec, old(tree), b, mood)
      ensures tree == TreeAfterImport(spec, old(tree), b, mood)
      ensures reply == Some(Valid) || reply == Some(Accepted) <==>
              && !mood.Broken? && b.parentHash in old(tree)
              && b.number == old(tree)[b.parentHash].number + 1
              && b.timestamp >= old(tree)[b.parentHash].timestamp
              && spec.executes(b)
      ensures reply == Some(Valid) ==> mood.Immediate?
      ensures reply == Some(Syncing) <==> !mood.Broken? && b.parentHash !in old(tree)
      ensures reply == None <==> mood.Broken?
      ensures tree ==
              if reply == Some(Valid) || reply == Some(Accepted) then old(tree)[spec.hash(b) := b] else old(tree)
    {
      if mood.Broken? {
        return None;
      }
      if b.parentHash !in tree {
        return Some(Syncing);
      }
      var parent := tree[b.parentHash];
      if b.number != parent.number + 1 || b.timestamp < parent.timestamp || !spec.executes(b) {
        return Some(Invalid);
      }
      tree := tree[spec.hash(b) := b];
      reply := Some(if mood.Deferred? then Accepted else Valid);
    }
  }
}
