/** The byte buffers codecs write into and read from. */
module Buffers {
  import opened Basics

  /** A growing output buffer, or the bytes an input cursor still has to read. */
  class Buffer {
    var bytes: seq<Byte>

    constructor (bytes: seq<Byte>)
      ensures this.bytes == bytes
    {
      this.bytes := bytes;
    }

    method Put(s: seq<Byte>)
      modifies this
      ensures bytes == old(bytes) + s
    {
      bytes := bytes + s;
    }
  }
}
