/** RLP as Appendix B of the Ethereum Yellow Paper defines it, restricted to the items the
    Allegro header needs: item headers, byte strings, and integers without leading zeros. */
module Rlp {
  import opened Basics

  datatype Error =
    | InputTooShort
    | NonCanonicalSingleByte
    | NonCanonicalSize
    | LeadingZero
    | Overflow
    | UnexpectedList
    | UnexpectedString
    | UnexpectedLength
    | ListLengthMismatch

  datatype Header = Header(list: bool, payloadLength: nat)

  /** The outcome of decoding a prefix of a buffer: the item and what the cursor has left. */
  type Decoded<T> = Result<(T, seq<Byte>), Error>

  // ── Big-endian integers ──

  function BigEndian(n: nat): seq<Byte> {
    if n == 0 then [] else BigEndian(n / 256) + [n % 256]
  }

  function FromBigEndian(s: seq<Byte>): nat {
    if s == [] then 0 else 256 * FromBigEndian(s[..|s| - 1]) + s[|s| - 1]
  }

  function Pow256(k: nat): (p: nat)
    ensures p > 0
  {
    if k == 0 then 1 else 256 * Pow256(k - 1)
  }

  lemma {:induction false} BigEndianRoundTrip(n: nat)
    ensures FromBigEndian(BigEndian(n)) == n
    ensures n > 0 ==> |BigEndian(n)| > 0 && BigEndian(n)[0] != 0
  {
    if n > 0 {
      BigEndianRoundTrip(n / 256);
      assert BigEndian(n)[..|BigEndian(n)| - 1] == BigEndian(n / 256);
    }
  }

  /** The stripped form is as short as the value allows. */
  lemma {:induction false} BigEndianLength(n: nat, k: nat)
    ensures |BigEndian(n)| <= k <==> n < Pow256(k)
  {
    if k > 0 && n > 0 {
      BigEndianLength(n / 256, k - 1);
    }
  }

  lemma U64Length(n: nat)
    ensures |BigEndian(n)| <= 8 <==> n <= U64_MAX
  {
    BigEndianLength(n, 8);
    assert Pow256(8) == U64_MAX + 1 by {
      assert Pow256(4) == 0x1_0000_0000;
    }
  }

  // ── Item headers ──

  function EncodeHeader(h: Header): seq<Byte>
    requires h.payloadLength <= U64_MAX
  {
    if h.payloadLength < 56 then
      [(if h.list then 0xC0 else 0x80) + h.payloadLength]
    else
      U64Length(h.payloadLength);
      [(if h.list then 0xF7 else 0xB7) + |BigEndian(h.payloadLength)|] + BigEndian(h.payloadLength)
  }

  /** An integer of at most eight bytes with no leading zero byte. */
  function DecodeInteger(s: seq<Byte>): (r: Result<U64, Error>)
  {
    if |s| > 8 then Err(Overflow)
    else if |s| > 0 && s[0] == 0 then Err(LeadingZero)
    else FromBigEndianBound(s); Ok(FromBigEndian(s))
  }

  lemma {:induction false} FromBigEndianBelowPow(s: seq<Byte>)
    ensures FromBigEndian(s) < Pow256(|s|)
  {
    if s != [] {
      FromBigEndianBelowPow(s[..|s| - 1]);
    }
  }

  lemma {:induction false} Pow256Monotone(j: nat, k: nat)
    requires j <= k
    ensures Pow256(j) <= Pow256(k)
    decreases k
  {
    if j < k {
      Pow256Monotone(j, k - 1);
    }
  }

  lemma FromBigEndianBound(s: seq<Byte>)
    requires |s| <= 8
    ensures FromBigEndian(s) <= U64_MAX
  {
    FromBigEndianBelowPow(s);
    Pow256Monotone(|s|, 8);
    assert Pow256(8) == U64_MAX + 1 by {
      assert Pow256(4) == 0x1_0000_0000;
    }
  }

  function DecodeHeader(buf: seq<Byte>): Decoded<Header> {
    if |buf| == 0 then Err(InputTooShort)
    else
      var b := buf[0];
      var (h, rest) :-
        if b < 0x80 then
          Ok((Header(false, 1), buf))
        else if b <= 0xB7 then
          if b == 0x81 && |buf| == 1 then Err(InputTooShort)
          else if b == 0x81 && buf[1] < 0x80 then Err(NonCanonicalSingleByte)
          else Ok((Header(false, b - 0x80), buf[1..]))
        else if 0xC0 <= b <= 0xF7 then
          Ok((Header(true, b - 0xC0), buf[1..]))
        else
          LongHeader(b >= 0xF8, b - (if b >= 0xF8 then 0xF7 else 0xB7), buf[1..]);
      if |rest| < h.payloadLength then Err(InputTooShort) else Ok((h, rest))
  }

  /** A header whose length field itself takes `n` bytes. */
  function LongHeader(list: bool, n: nat, buf: seq<Byte>): Decoded<Header> {
    if |buf| < n then Err(InputTooShort)
    else
      var length :- DecodeInteger(buf[..n]);
      if length < 56 then Err(NonCanonicalSize) else Ok((Header(list, length), buf[n..]))
  }

  /** A header is read back from the front of any buffer long enough for its payload; the only
      other demand is that a one-byte string payload could not have stood for itself. */
  lemma HeaderRoundTrip(h: Header, rest: seq<Byte>)
    requires h.payloadLength <= U64_MAX && h.payloadLength <= |rest|
    requires !h.list && h.payloadLength == 1 ==> rest[0] >= 0x80
    ensures DecodeHeader(EncodeHeader(h) + rest) == Ok((h, rest))
  {
    if h.payloadLength < 56 {
      var first := (if h.list then 0xC0 else 0x80) + h.payloadLength;
      assert ([first] + rest)[1..] == rest;
    } else {
      var be := BigEndian(h.payloadLength);
      U64Length(h.payloadLength);
      BigEndianRoundTrip(h.payloadLength);
      LongHeaderRoundTrip(h, rest);
      var first := (if h.list then 0xF7 else 0xB7) + |be|;
      assert EncodeHeader(h) + rest == [first] + (be + rest);
      assert ([first] + (be + rest))[1..] == be + rest;
    }
  }

  lemma LongHeaderRoundTrip(h: Header, rest: seq<Byte>)
    requires 56 <= h.payloadLength <= U64_MAX
    ensures var be := BigEndian(h.payloadLength);
            LongHeader(h.list, |be|, be + rest) == Ok((h, rest))
  {
    var be := BigEndian(h.payloadLength);
    U64Length(h.payloadLength);
    BigEndianRoundTrip(h.payloadLength);
    assert (be + rest)[..|be|] == be && (be + rest)[|be|..] == rest;
  }

  // ── Byte strings and integers ──

  function EncodeBytes(s: seq<Byte>): seq<Byte>
    requires |s| <= U64_MAX
  {
    if |s| == 1 && s[0] < 0x80 then s else EncodeHeader(Header(false, |s|)) + s
  }

  function DecodeBytes(buf: seq<Byte>): Decoded<seq<Byte>> {
    var (h, rest) :- DecodeHeader(buf);
    if h.list then Err(UnexpectedList)
    else if |rest| < h.payloadLength then Err(InputTooShort)
    else Ok((rest[..h.payloadLength], rest[h.payloadLength..]))
  }

  lemma BytesRoundTrip(s: seq<Byte>, rest: seq<Byte>)
    requires |s| <= U64_MAX
    ensures DecodeBytes(EncodeBytes(s) + rest) == Ok((s, rest))
  {
    if |s| == 1 && s[0] < 0x80 {
      assert (s + rest)[..1] == s && (s + rest)[1..] == rest;
    } else {
      var h := Header(false, |s|);
      HeaderRoundTrip(h, s + rest);
      assert EncodeBytes(s) + rest == EncodeHeader(h) + (s + rest);
      assert (s + rest)[..|s|] == s && (s + rest)[|s|..] == rest;
    }
  }

  function EncodeU64(n: U64): seq<Byte> {
    if n == 0 then [0x80]
    else if n < 0x80 then [n]
    else U64Length(n); [0x80 + |BigEndian(n)|] + BigEndian(n)
  }

  function DecodeU64(buf: seq<Byte>): Decoded<U64> {
    var (s, rest) :- DecodeBytes(buf);
    var n :- DecodeInteger(s);
    Ok((n, rest))
  }

  /** An integer is encoded as the byte string of its stripped big-endian form. */
  lemma U64IsBytes(n: U64)
    ensures |BigEndian(n)| <= 8
    ensures EncodeU64(n) == EncodeBytes(BigEndian(n))
    ensures 1 <= |EncodeU64(n)| <= 9
  {
    U64Length(n);
    if 0 < n < 0x80 {
      assert BigEndian(n / 256) == [];
      assert BigEndian(n) == [n];
    } else if n >= 0x80 {
      if |BigEndian(n)| == 1 {
        BigEndianLength(n, 1);
        assert Pow256(1) == 256;
        assert BigEndian(n / 256) == [];
        assert BigEndian(n) == [n];
      }
    }
  }

  lemma U64RoundTrip(n: U64, rest: seq<Byte>)
    ensures DecodeU64(EncodeU64(n) + rest) == Ok((n, rest))
  {
    U64IsBytes(n);
    BytesRoundTrip(BigEndian(n), rest);
    BigEndianRoundTrip(n);
  }

  // ── What decoding accepts ──

  lemma {:induction false} StrippedIsBigEndian(s: seq<Byte>)
    requires s != [] ==> s[0] != 0
    ensures BigEndian(FromBigEndian(s)) == s
    ensures s != [] ==> FromBigEndian(s) > 0
  {
    if s != [] {
      var init, last := s[..|s| - 1], s[|s| - 1];
      StrippedIsBigEndian(init);
      ShiftIsAppend(FromBigEndian(init), last);
      assert s == init + [last];
    }
  }

  lemma ShiftIsAppend(n: nat, last: Byte)
    requires n > 0 || last > 0
    ensures 256 * n + last > 0 && BigEndian(256 * n + last) == BigEndian(n) + [last]
  {
    assert (256 * n + last) / 256 == n && (256 * n + last) % 256 == last;
  }

  /** Only the shortest header of a payload is accepted, and only if the payload is there. A byte below
      0x80 stands for itself. */
  lemma HeaderIsCanonical(buf: seq<Byte>)
    ensures DecodeHeader(buf).Ok? ==>
              var (h, rest) := DecodeHeader(buf).value;
              && h.payloadLength <= U64_MAX && h.payloadLength <= |rest|
              && (if buf[0] < 0x80 then h == Header(false, 1) && rest == buf
                  else buf == EncodeHeader(h) + rest && (!h.list && h.payloadLength == 1 ==> rest[0] >= 0x80))
  {
    if DecodeHeader(buf).Ok? && buf[0] >= 0x80 {
      var b := buf[0];
      var (h, rest) := DecodeHeader(buf).value;
      assert buf == [b] + buf[1..];
      if !(b <= 0xB7 || 0xC0 <= b <= 0xF7) {
        LongHeaderIsCanonical(b >= 0xF8, b - (if b >= 0xF8 then 0xF7 else 0xB7), buf[1..]);
        assert h.payloadLength >= 56 && EncodeHeader(h) == [b] + BigEndian(h.payloadLength);
      }
    }
  }

  lemma LongHeaderIsCanonical(list: bool, n: nat, buf: seq<Byte>)
    ensures LongHeader(list, n, buf).Ok? ==>
              var (h, rest) := LongHeader(list, n, buf).value;
              && h.list == list && 56 <= h.payloadLength <= U64_MAX
              && |BigEndian(h.payloadLength)| == n && buf == BigEndian(h.payloadLength) + rest
  {
    if LongHeader(list, n, buf).Ok? {
      StrippedIsBigEndian(buf[..n]);
      assert buf == buf[..n] + buf[n..];
    }
  }

  /** A byte string is accepted exactly in its one encoding. */
  lemma BytesAcceptedExactly(buf: seq<Byte>, s: seq<Byte>, rest: seq<Byte>)
    ensures DecodeBytes(buf) == Ok((s, rest)) <==> |s| <= U64_MAX && buf == EncodeBytes(s) + rest
  {
    if DecodeBytes(buf) == Ok((s, rest)) {
      BytesAreCanonical(buf, s, rest);
    } else if |s| <= U64_MAX && buf == EncodeBytes(s) + rest {
      BytesRoundTrip(s, rest);
    }
  }

  lemma BytesAreCanonical(buf: seq<Byte>, s: seq<Byte>, rest: seq<Byte>)
    requires DecodeBytes(buf) == Ok((s, rest))
    ensures |s| <= U64_MAX && buf == EncodeBytes(s) + rest
  {
    HeaderIsCanonical(buf);
    var (h, b) := DecodeHeader(buf).value;
    assert b == s + rest && |s| == h.payloadLength;
    if buf[0] < 0x80 {
      assert s == [buf[0]];
    } else {
      assert EncodeBytes(s) == EncodeHeader(h) + s by {
        assert |s| == 1 ==> s[0] == b[0];
      }
      assert EncodeHeader(h) + (s + rest) == EncodeHeader(h) + s + rest;
    }
  }

  /** And so is an integer. */
  lemma U64AcceptedExactly(buf: seq<Byte>, n: U64, rest: seq<Byte>)
    ensures DecodeU64(buf) == Ok((n, rest)) <==> buf == EncodeU64(n) + rest
  {
    if DecodeU64(buf) == Ok((n, rest)) {
      var (s, b) := DecodeBytes(buf).value;
      BytesAcceptedExactly(buf, s, b);
      StrippedIsBigEndian(s);
      U64IsBytes(n);
    }
    if buf == EncodeU64(n) + rest {
      U64RoundTrip(n, rest);
    }
  }

  // ── The definition in the standard ──

  /** A tree of byte strings. */
  datatype Item = Str(bytes: seq<Byte>) | Lst(items: seq<Item>)

  /** The function RLP of Appendix B; too long an item has no encoding. */
  function Serialized(item: Item): Option<seq<Byte>>
    decreases item
  {
    match item
    case Str(x) =>
      if |x| == 1 && x[0] < 128 then Some(x) else WithLength(128, x)
    case Lst(items) =>
      match SerializedAll(items)
      case None => None
      case Some(s) => WithLength(192, s)
  }

  function SerializedAll(items: seq<Item>): Option<seq<Byte>>
    decreases items
  {
    if items == [] then Some([])
    else
      match (Serialized(items[0]), SerializedAll(items[1..]))
      case (Some(first), Some(rest)) => Some(first + rest)
      case _ => None
  }

  function WithLength(base: nat, x: seq<Byte>): Option<seq<Byte>>
    requires base == 128 || base == 192
  {
    if |x| < 56 then Some([base + |x|] + x)
    else if |x| > U64_MAX then None
    else U64Length(|x|); Some([base + 55 + |BigEndian(|x|)|] + BigEndian(|x|) + x)
  }

  lemma OneMoreIsSerialized(first: Item, rest: seq<Item>, a: seq<Byte>, b: seq<Byte>)
    requires Serialized(first) == Some(a) && SerializedAll(rest) == Some(b)
    ensures SerializedAll([first] + rest) == Some(a + b)
  {
    assert ([first] + rest)[1..] == rest;
  }

  lemma BytesAreSerialized(s: seq<Byte>)
    requires |s| <= U64_MAX
    ensures Serialized(Str(s)) == Some(EncodeBytes(s))
  {}

  lemma U64IsSerialized(n: U64)
    ensures Serialized(Str(BigEndian(n))) == Some(EncodeU64(n))
  {
    U64IsBytes(n);
  }

  lemma ListIsSerialized(items: seq<Item>, payload: seq<Byte>)
    requires SerializedAll(items) == Some(payload) && |payload| <= U64_MAX
    ensures Serialized(Lst(items)) == Some(EncodeHeader(Header(true, |payload|)) + payload)
  {}
}
