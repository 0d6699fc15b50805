/** A concrete instance of the failing run: a network, a block codec and two blocks on genesis for
    which everything the general statement asks for holds. */
module RaceExample {
  import opened Basics
  import opened Engine
  import opened Glue
  import opened System
  import opened Race

  function Digest(k: Byte): Hash {
    Hash([k, 0, 0, 0, 0, 0, 0, 0, 0, 0, 0, 0, 0, 0, 0, 0,
          0, 0, 0, 0, 0, 0, 0, 0, 0, 0, 0, 0, 0, 0, 0, 0])
  }

  // ── A codec for every block: the numbers in unary, the body last ──

  function Unary(n: nat): seq<Byte> {
    if n == 0 then [0] else [1] + Unary(n - 1)
  }

  function ReadUnary(s: seq<Byte>): Option<(nat, seq<Byte>)> {
    if s == [] then None
    else if s[0] == 0 then Some((0, s[1..]))
    else
      match ReadUnary(s[1..])
      case None => None
      case Some((n, rest)) => Some((n + 1, rest))
  }

  lemma {:induction false} UnaryRoundTrip(n: nat, rest: seq<Byte>)
    ensures ReadUnary(Unary(n) + rest) == Some((n, rest))
  {
    if n == 0 {
      assert ([0] + rest)[1..] == rest;
    } else {
      UnaryRoundTrip(n - 1, rest);
      assert (Unary(n) + rest)[1..] == Unary(n - 1) + rest;
    }
  }

  function Encode(b: Block): seq<Byte> {
    b.parentHash.bytes + (Unary(b.number) + (Unary(b.timestamp) + b.body))
  }

  function Decode(s: seq<Byte>): Option<Block> {
    if |s| < 32 then None
    else
      match ReadUnary(s[32..])
      case None => None
      case Some((number, rest)) =>
        match ReadUnary(rest)
        case None => None
        case Some((timestamp, body)) =>
          if timestamp > U64_MAX then None else Some(Block(Hash(s[..32]), number, timestamp, body))
  }

  lemma BlockRoundTrip(b: Block)
    ensures Decode(Encode(b)) == Some(b)
  {
    var tail := Unary(b.number) + (Unary(b.timestamp) + b.body);
    assert Encode(b)[..32] == b.parentHash.bytes && Encode(b)[32..] == tail;
    UnaryRoundTrip(b.number, Unary(b.timestamp) + b.body);
    UnaryRoundTrip(b.timestamp, b.body);
  }

  // ── Genesis and two blocks on it ──

  const GENESIS := Block(EMPTY, 0, 0, [])
  const LEFT := Block(Digest(1), 1, 0, [1])
  const RIGHT := Block(Digest(1), 1, 0, [2])

  /** Tells the three blocks of the run apart. */
  function BlockHash(b: Block): Hash {
    if b == GENESIS then Digest(1) else if b == LEFT then Digest(2) else Digest(3)
  }

  function Network(): Spec {
    Spec(BlockHash, Encode, Decode, (_: Block) => true, GENESIS, [])
  }

  lemma NetworkIsValid()
    ensures Network().Valid()
  {
    forall b: Block
      ensures Network().decode(Network().encode(b)) == Some(b)
    {
      BlockRoundTrip(b);
    }
    assert Digest(1).bytes[0] != EMPTY.bytes[0];
  }

  lemma BlocksAreOnGenesis()
    ensures OnGenesis(Network(), LEFT, 0) && OnGenesis(Network(), RIGHT, 0)
    ensures BlockHash(LEFT) != BlockHash(RIGHT)
  {
    assert Digest(1).bytes[0] == 1 && Digest(2).bytes[0] == 2 && Digest(3).bytes[0] == 3 && EMPTY.bytes[0] == 0;
    assert LEFT.body[0] != RIGHT.body[0];
  }

  /** So even when every proposal is handed out on a parent that extends the finalizations so far, a
      build on a recorded parent can ask with a forkchoice state that names no chain, and is refused
      whatever the engine's mood. */
  lemma HandoutIsNotEnough() returns (c: Spec, s: Sys)
    ensures c.Valid() && Reachable(c, FromTheChain, s) && |s.nodes| == 1 && s.nodes[0].task.Asking?
    ensures s.nodes[0].task.job.msg.parent in s.nodes[0].stores.blockInfo
    ensures !WellFormed(s.nodes[0].stores.tree, s.nodes[0].task.fc)
    ensures forall mood :: !Ask(s.nodes[0], mood).task.Resolving?
  {
    c := Network();
    NetworkIsValid();
    BlocksAreOnGenesis();
    s := LateFinalizationBreaksBuild(c, map[], Propose(0, EMPTY, 0, 1, []), LEFT, 0, RIGHT, 0);
  }
}
