/** How a block travels: 32 bytes of digest, then the encoded block. The relay frames it, the
    receiver parses it, and the `Block` codec reads and writes the same bytes. */
module Wire {
  import opened Basics
  import opened Buffers

  function Frame(digest: Hash, block: seq<Byte>): seq<Byte> {
    digest.bytes + block
  }

  function Parse(data: seq<Byte>): Option<(Hash, seq<Byte>)> {
    if |data| < 32 then None else Some((Hash(data[..32]), data[32..]))
  }

  /** Parsing undoes framing, and framing undoes parsing on every message long enough to hold a
      digest: the two formats are one. */
  lemma FramesAreOneFormat(digest: Hash, block: seq<Byte>, data: seq<Byte>)
    ensures Parse(Frame(digest, block)) == Some((digest, block))
    ensures Parse(data).Some? <==> |data| >= 32
    ensures Parse(data) == Some((digest, block)) <==> data == Frame(digest, block)
  {
    assert Frame(digest, block)[..32] == digest.bytes;
    assert Frame(digest, block)[32..] == block;
    if |data| >= 32 {
      assert data == data[..32] + data[32..];
    }
  }

  datatype WireBlock = WireBlock(inner: seq<Byte>, hash: Hash)

  function EncodeSize(b: WireBlock): nat {
    32 + |b.inner|
  }

  method Write(b: WireBlock, buf: Buffer)
    modifies buf
    ensures buf.bytes == old(buf.bytes) + Frame(b.hash, b.inner)
    ensures |buf.bytes| == |old(buf.bytes)| + EncodeSize(b)
  {
    buf.Put(b.hash.bytes);
    buf.Put(b.inner);
  }

  /** Consumes the whole buffer; what it returns writes back to the bytes it read. */
  method Read(buf: Buffer) returns (r: Option<WireBlock>)
    modifies buf
    ensures r.Some? <==> |old(buf.bytes)| >= 32
    ensures r.Some? ==> Frame(r.value.hash, r.value.inner) == old(buf.bytes) && buf.bytes == []
    ensures r.Some? ==> Parse(old(buf.bytes)) == Some((r.value.hash, r.value.inner))
    ensures r.None? ==> buf.bytes == old(buf.bytes)
  {
    if |buf.bytes| < 32 {
      return None;
    }
    var hash := Hash(buf.bytes[..32]);
    buf.bytes := buf.bytes[32..];
    var inner := buf.bytes[..|buf.bytes|];
    buf.bytes := buf.bytes[|buf.bytes|..];
    r := Some(WireBlock(inner, hash));
  }
}
