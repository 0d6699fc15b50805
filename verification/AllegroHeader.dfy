/** The block header of Allegro: an Ethereum header, a millisecond timestamp and an optional
    consensus context, with the hand-written codec of the context and the derived one around it. */
module AllegroHeader {
  import opened Basics
  import opened Buffers
  import opened Rlp

  type ProposerKey = s: seq<Byte> | |s| == 32 witness seq(32, _ => 0)

  datatype ConsensusContext = ConsensusContext(epoch: U64, view: U64, parentView: U64, proposer: ProposerKey)

  // ── The consensus context ──

  function Payload(c: ConsensusContext): (p: seq<Byte>)
    ensures 36 <= |p| <= 60
  {
    U64IsBytes(c.epoch);
    U64IsBytes(c.view);
    U64IsBytes(c.parentView);
    EncodeU64(c.epoch) + EncodeU64(c.view) + EncodeU64(c.parentView) + EncodeBytes(c.proposer)
  }

  function EncodeContext(c: ConsensusContext): seq<Byte> {
    EncodeHeader(Rlp.Header(true, |Payload(c)|)) + Payload(c)
  }

  /** The length the context reports for itself, branch by branch as it is written. */
  function ContextLength(c: ConsensusContext): nat {
    var pl := |Payload(c)|;
    (if pl <= 55 then 1 else if pl <= 0xFF then 2 else if pl <= 0xFFFF then 3 else 4) + pl
  }

  function DecodeContext(buf: seq<Byte>): Decoded<ConsensusContext> {
    var (h, b0) :- DecodeHeader(buf);
    if !h.list then Err(UnexpectedString)
    else
      DecodeContextFields(b0)
  }

  function DecodeContextFields(buf: seq<Byte>): Decoded<ConsensusContext> {
    var (epoch, b1) :- DecodeU64(buf);
    var (view, b2) :- DecodeU64(b1);
    var (parentView, b3) :- DecodeU64(b2);
    var (proposer, b4) :- DecodeBytes(b3);
    if |proposer| != 32 then Err(UnexpectedLength)
    else Ok((ConsensusContext(epoch, view, parentView, proposer), b4))
  }

  /** The reported length is the number of bytes written, for every context. The payload always
      fits a header of one or two bytes, and the longer headers are never reached. */
  lemma ContextLengthIsExact(c: ConsensusContext)
    ensures ContextLength(c) == |EncodeContext(c)|
    ensures ContextLength(c) - |Payload(c)| == if |Payload(c)| <= 55 then 1 else 2
    ensures 37 <= ContextLength(c) <= 62
  {
    BigEndianLength(|Payload(c)|, 1);
    BigEndianLength(|Payload(c)|, 0);
    assert Pow256(1) == 256;
  }

  /** Both header sizes occur: the extremes of the payload are reached. */
  lemma BothHeaderSizesOccur(proposer: ProposerKey)
    ensures |Payload(ConsensusContext(0, 0, 0, proposer))| == 36
    ensures |Payload(ConsensusContext(U64_MAX, U64_MAX, U64_MAX, proposer))| == 60
  {
    U64Length(U64_MAX);
    BigEndianLength(U64_MAX, 7);
    assert Pow256(7) <= U64_MAX by {
      assert Pow256(4) == 0x1_0000_0000;
    }
  }

  /** What a proposer key standing alone reports; no encoder here relies on it. */
  function ProposerKeyLength(k: ProposerKey): nat {
    32
  }

  /** It is one byte less than the key writes. */
  lemma ProposerKeyLengthIsShort(k: ProposerKey)
    ensures |EncodeBytes(k)| == ProposerKeyLength(k) + 1
  {}

  lemma ContextFieldsRoundTrip(c: ConsensusContext, rest: seq<Byte>)
    ensures DecodeContextFields(Payload(c) + rest) == Ok((c, rest))
  {
    var tail := EncodeBytes(c.proposer) + rest;
    var e, v, pv := EncodeU64(c.epoch), EncodeU64(c.view), EncodeU64(c.parentView);
    assert Payload(c) + rest == e + (v + (pv + tail));
    U64RoundTrip(c.epoch, v + (pv + tail));
    U64RoundTrip(c.view, pv + tail);
    U64RoundTrip(c.parentView, tail);
    BytesRoundTrip(c.proposer, rest);
  }

  /** Whatever length the list header claims, the fields alone decide what is decoded and where
      the cursor stops; so the bytes read are the canonical ones exactly when the claim is true. */
  lemma ContextDecodingIgnoresLength(c: ConsensusContext, claimed: nat, rest: seq<Byte>)
    requires claimed <= U64_MAX && claimed <= |Payload(c) + rest|
    ensures DecodeContext(EncodeHeader(Rlp.Header(true, claimed)) + Payload(c) + rest) == Ok((c, rest))
    ensures EncodeHeader(Rlp.Header(true, claimed)) + Payload(c) == EncodeContext(c) <==> claimed == |Payload(c)|
  {
    var h := Rlp.Header(true, claimed);
    HeaderRoundTrip(h, Payload(c) + rest);
    assert EncodeHeader(h) + Payload(c) + rest == EncodeHeader(h) + (Payload(c) + rest);
    ContextFieldsRoundTrip(c, rest);
    if EncodeHeader(h) + Payload(c) == EncodeContext(c) {
      SameHeader(h, Rlp.Header(true, |Payload(c)|), Payload(c), Payload(c) + rest);
    }
  }

  lemma SameHeader(h: Rlp.Header, h': Rlp.Header, p: seq<Byte>, q: seq<Byte>)
    requires h.payloadLength <= U64_MAX && h'.payloadLength <= U64_MAX && h.list && h'.list
    requires h.payloadLength <= |q| && h'.payloadLength <= |q|
    requires EncodeHeader(h) + p == EncodeHeader(h') + p
    ensures h == h'
  {
    SameFront(EncodeHeader(h), EncodeHeader(h'), p);
    HeaderRoundTrip(h, q);
    HeaderRoundTrip(h', q);
  }

  lemma SameFront(a: seq<Byte>, b: seq<Byte>, p: seq<Byte>)
    requires a + p == b + p
    ensures a == b
  {
    assert |a| == |b|;
    assert a == (a + p)[..|a|] && b == (b + p)[..|a|];
  }

  lemma ContextRoundTrip(c: ConsensusContext, rest: seq<Byte>)
    ensures DecodeContext(EncodeContext(c) + rest) == Ok((c, rest))
  {
    ContextDecodingIgnoresLength(c, |Payload(c)|, rest);
  }

  /** The context as the standard's tree of byte strings. */
  function ContextItem(c: ConsensusContext): Item {
    Lst([Str(BigEndian(c.epoch)), Str(BigEndian(c.view)), Str(BigEndian(c.parentView)), Str(c.proposer)])
  }

  lemma ContextIsSerialized(c: ConsensusContext)
    ensures Serialized(ContextItem(c)) == Some(EncodeContext(c))
  {
    U64IsSerialized(c.epoch);
    U64IsSerialized(c.view);
    U64IsSerialized(c.parentView);
    BytesAreSerialized(c.proposer);
    FourAreSerialized(
      ContextItem(c).items, EncodeU64(c.epoch), EncodeU64(c.view), EncodeU64(c.parentView), EncodeBytes(c.proposer));
    ListIsSerialized(ContextItem(c).items, Payload(c));
  }

  lemma FourAreSerialized(items: seq<Item>, a: seq<Byte>, b: seq<Byte>, c: seq<Byte>, d: seq<Byte>)
    requires |items| == 4 && Serialized(items[0]) == Some(a) && Serialized(items[1]) == Some(b)
    requires Serialized(items[2]) == Some(c) && Serialized(items[3]) == Some(d)
    ensures SerializedAll(items) == Some(a + b + c + d)
  {
    FrontIsSerialized(items[3..], d, []);
    FrontIsSerialized(items[2..], c, d + []);
    FrontIsSerialized(items[1..], b, c + (d + []));
    FrontIsSerialized(items, a, b + (c + (d + [])));
    FourInARow(a, b, c, d);
  }

  lemma FrontIsSerialized(items: seq<Item>, a: seq<Byte>, b: seq<Byte>)
    requires items != [] && Serialized(items[0]) == Some(a) && SerializedAll(items[1..]) == Some(b)
    ensures SerializedAll(items) == Some(a + b)
  {}

  lemma FourInARow(a: seq<Byte>, b: seq<Byte>, c: seq<Byte>, d: seq<Byte>)
    ensures a + (b + (c + (d + []))) == a + b + c + d
  {}

  lemma PayloadInFront(c: ConsensusContext, rest: seq<Byte>)
    ensures Payload(c) + rest ==
            EncodeU64(c.epoch) + (EncodeU64(c.view) + (EncodeU64(c.parentView) + (EncodeBytes(c.proposer) + rest)))
  {
    var e, v, pv, p := EncodeU64(c.epoch), EncodeU64(c.view), EncodeU64(c.parentView), EncodeBytes(c.proposer);
    assert e + v + pv + p + rest == e + (v + (pv + (p + rest)));
  }

  lemma FieldsAcceptedExactly(buf: seq<Byte>, c: ConsensusContext, rest: seq<Byte>)
    ensures DecodeContextFields(buf) == Ok((c, rest)) <==> buf == Payload(c) + rest
  {
    if DecodeContextFields(buf) == Ok((c, rest)) {
      var (epoch, b1) := DecodeU64(buf).value;
      var (view, b2) := DecodeU64(b1).value;
      var (parentView, b3) := DecodeU64(b2).value;
      U64AcceptedExactly(buf, epoch, b1);
      U64AcceptedExactly(b1, view, b2);
      U64AcceptedExactly(b2, parentView, b3);
      BytesAcceptedExactly(b3, c.proposer, rest);
      PayloadInFront(c, rest);
    }
    if buf == Payload(c) + rest {
      ContextFieldsRoundTrip(c, rest);
    }
  }

  /** A context is accepted exactly from a list header, of any length that is there, followed by its
      fields, each in its one encoding; everything else is rejected. */
  lemma ContextAcceptedExactly(buf: seq<Byte>, c: ConsensusContext, rest: seq<Byte>)
    ensures DecodeContext(buf) == Ok((c, rest)) <==>
            exists claimed: nat ::
              claimed <= U64_MAX && claimed <= |Payload(c) + rest|
              && buf == EncodeHeader(Rlp.Header(true, claimed)) + Payload(c) + rest
  {
    if DecodeContext(buf) == Ok((c, rest)) {
      var (h, b0) := DecodeHeader(buf).value;
      HeaderIsCanonical(buf);
      FieldsAcceptedExactly(b0, c, rest);
      assert buf == EncodeHeader(Rlp.Header(true, h.payloadLength)) + Payload(c) + rest;
    }
    if claimed: nat :| claimed <= U64_MAX && claimed <= |Payload(c) + rest|
                       && buf == EncodeHeader(Rlp.Header(true, claimed)) + Payload(c) + rest
    {
      ContextDecodingIgnoresLength(c, claimed, rest);
    }
  }

  // ── The same codec, writing to and reading from a buffer ──

  method WriteContext(c: ConsensusContext, out: Buffer)
    modifies out
    ensures out.bytes == old(out.bytes) + EncodeContext(c)
  {
    var payload := new Buffer([]);
    payload.Put(EncodeU64(c.epoch));
    payload.Put(EncodeU64(c.view));
    payload.Put(EncodeU64(c.parentView));
    payload.Put(EncodeBytes(c.proposer));
    assert payload.bytes == Payload(c);
    out.Put(EncodeHeader(Rlp.Header(true, |payload.bytes|)));
    out.Put(payload.bytes);
  }

  method ReadContext(buf: Buffer) returns (r: Result<ConsensusContext, Error>)
    modifies buf
    ensures match DecodeContext(old(buf.bytes))
            case Ok((c, rest)) => r == Ok(c) && buf.bytes == rest
            case Err(e) => r == Err(e)
  {
    var header :- DecodeHeader(buf.bytes);
    buf.bytes := header.1;
    if !header.0.list {
      return Err(UnexpectedString);
    }
    var epoch :- ReadU64(buf);
    var view :- ReadU64(buf);
    var parentView :- ReadU64(buf);
    var proposer :- DecodeBytes(buf.bytes);
    buf.bytes := proposer.1;
    if |proposer.0| != 32 {
      return Err(UnexpectedLength);
    }
    r := Ok(ConsensusContext(epoch, view, parentView, proposer.0));
  }

  method ReadU64(buf: Buffer) returns (r: Result<U64, Error>)
    modifies buf
    ensures match DecodeU64(old(buf.bytes))
            case Ok((n, rest)) => r == Ok(n) && buf.bytes == rest
            case Err(e) => r == Err(e)
  {
    var n :- DecodeU64(buf.bytes);
    buf.bytes := n.1;
    r := Ok(n.0);
  }

  // ── The header ──

  datatype AllegroHeader<+H> = AllegroHeader(inner: H, timestampMillis: U64, context: Option<ConsensusContext>)

  /** The codec of the inner Ethereum header, known only as a self-delimiting one. */
  datatype InnerCodec<!H(!new)> = InnerCodec(
    encode: H -> seq<Byte>,
    length: H -> nat,
    decode: seq<Byte> -> Decoded<H>)
  {
    ghost predicate Valid() {
      && (forall h: H :: length(h) == |encode(h)|)
      && (forall h: H, rest: seq<Byte> :: decode(encode(h) + rest) == Ok((h, rest)))
    }
  }

  /** What the derived encoder announces: the lengths each field reports for itself. */
  function ReportedLength<H(!new)>(k: InnerCodec<H>, h: AllegroHeader<H>): nat {
    k.length(h.inner) + |EncodeU64(h.timestampMillis)|
    + (if h.context.Some? then ContextLength(h.context.value) else 0)
  }

  function HeaderPayload<H(!new)>(k: InnerCodec<H>, h: AllegroHeader<H>): seq<Byte> {
    k.encode(h.inner) + (EncodeU64(h.timestampMillis)
    + (if h.context.Some? then EncodeContext(h.context.value) else []))
  }

  /** `requires` what holds of any value in memory: its encoding is no longer than a `usize`. */
  function EncodeAllegroHeader<H(!new)>(k: InnerCodec<H>, h: AllegroHeader<H>): seq<Byte>
    requires ReportedLength(k, h) <= U64_MAX
  {
    EncodeHeader(Rlp.Header(true, ReportedLength(k, h))) + HeaderPayload(k, h)
  }

  function DecodeAllegroHeader<H(!new)>(k: InnerCodec<H>, buf: seq<Byte>): Decoded<AllegroHeader<H>> {
    var (h, b0) :- DecodeHeader(buf);
    if !h.list then Err(UnexpectedString)
    else
      var (inner, b1) :- k.decode(b0);
      var (millis, b2) :- DecodeU64(b1);
      var (context, b3) :-
        if |b0| - |b2| < h.payloadLength then
          match DecodeContext(b2)
          case Ok((c, b)) => Ok((Some(c), b))
          case Err(e) => Err(e)
        else Ok((None, b2));
      if |b0| - |b3| != h.payloadLength then Err(ListLengthMismatch)
      else Ok((AllegroHeader(inner, millis, context), b3))
  }

  /** The length the outer list announces is the length of what follows it. */
  lemma ReportedLengthIsExact<H(!new)>(k: InnerCodec<H>, h: AllegroHeader<H>)
    requires k.Valid()
    ensures ReportedLength(k, h) == |HeaderPayload(k, h)|
  {
    if h.context.Some? {
      ContextLengthIsExact(h.context.value);
    }
  }

  /** Decoding returns every header, with or without context, and leaves exactly what followed. */
  lemma AllegroHeaderRoundTrip<H(!new)>(k: InnerCodec<H>, h: AllegroHeader<H>, rest: seq<Byte>)
    requires k.Valid() && ReportedLength(k, h) <= U64_MAX
    ensures DecodeAllegroHeader(k, EncodeAllegroHeader(k, h) + rest) == Ok((h, rest))
  {
    var millis := EncodeU64(h.timestampMillis);
    var context := if h.context.Some? then EncodeContext(h.context.value) else [];
    var b0 := HeaderPayload(k, h) + rest;
    ReportedLengthIsExact(k, h);
    assert EncodeAllegroHeader(k, h) + rest == EncodeHeader(Rlp.Header(true, ReportedLength(k, h))) + b0;
    HeaderRoundTrip(Rlp.Header(true, ReportedLength(k, h)), b0);
    assert b0 == k.encode(h.inner) + (millis + (context + rest));
    U64RoundTrip(h.timestampMillis, context + rest);
    if h.context.Some? {
      ContextRoundTrip(h.context.value, rest);
    } else {
      assert context + rest == rest;
    }
  }

  /** The header as the standard's tree, given the inner header as one. */
  lemma HeaderIsSerialized<H(!new)>(k: InnerCodec<H>, h: AllegroHeader<H>, inner: Item)
    requires k.Valid() && ReportedLength(k, h) <= U64_MAX && Serialized(inner) == Some(k.encode(h.inner))
    ensures Serialized(Lst([inner, Str(BigEndian(h.timestampMillis))]
                           + (if h.context.Some? then [ContextItem(h.context.value)] else [])))
            == Some(EncodeAllegroHeader(k, h))
  {
    var tail := if h.context.Some? then [ContextItem(h.context.value)] else [];
    var end := if h.context.Some? then EncodeContext(h.context.value) else [];
    var millis := Str(BigEndian(h.timestampMillis));
    U64IsSerialized(h.timestampMillis);
    ReportedLengthIsExact(k, h);
    if h.context.Some? {
      ContextIsSerialized(h.context.value);
      OneMoreIsSerialized(ContextItem(h.context.value), [], end, []);
      assert tail == [ContextItem(h.context.value)] + [] && end + [] == end;
    }
    OneMoreIsSerialized(millis, tail, EncodeU64(h.timestampMillis), end);
    OneMoreIsSerialized(inner, [millis] + tail, k.encode(h.inner), EncodeU64(h.timestampMillis) + end);
    assert [inner, millis] + tail == [inner] + ([millis] + tail);
    ListIsSerialized([inner, millis] + tail, HeaderPayload(k, h));
  }

  /** The announced length decides what is read of a header with a context: all of it if it is right;
      the header without, if it covers just the first two fields; and any other is a mismatch. */
  lemma AnnouncedLengthDecides<H(!new)>(k: InnerCodec<H>, h: AllegroHeader<H>, announced: nat, rest: seq<Byte>)
    requires k.Valid() && h.context.Some? && announced <= U64_MAX && announced <= |HeaderPayload(k, h) + rest|
    ensures var without := h.(context := None);
            DecodeAllegroHeader(k, EncodeHeader(Rlp.Header(true, announced)) + (HeaderPayload(k, h) + rest)) ==
            if announced == ReportedLength(k, h) then Ok((h, rest))
            else if announced == ReportedLength(k, without) then
              Ok((without, EncodeContext(h.context.value) + rest))
            else Err(ListLengthMismatch)
  {
    var b0 := HeaderPayload(k, h) + rest;
    HeaderRoundTrip(Rlp.Header(true, announced), b0);
    FieldsInFront(k, h, rest);
  }

  /** What decoding finds after the list header. */
  lemma FieldsInFront<H(!new)>(k: InnerCodec<H>, h: AllegroHeader<H>, rest: seq<Byte>)
    requires k.Valid() && h.context.Some?
    ensures var b0, end := HeaderPayload(k, h) + rest, EncodeContext(h.context.value) + rest;
            && k.decode(b0) == Ok((h.inner, EncodeU64(h.timestampMillis) + end))
            && DecodeU64(EncodeU64(h.timestampMillis) + end) == Ok((h.timestampMillis, end))
            && DecodeContext(end) == Ok((h.context.value, rest))
            && |b0| - |rest| == ReportedLength(k, h) && |b0| - |end| == ReportedLength(k, h.(context := None))
            && ReportedLength(k, h.(context := None)) < ReportedLength(k, h)
  {
    var end := EncodeContext(h.context.value) + rest;
    PartsInFront(k.encode(h.inner), EncodeU64(h.timestampMillis), EncodeContext(h.context.value), rest);
    U64RoundTrip(h.timestampMillis, end);
    ContextRoundTrip(h.context.value, rest);
    ContextLengthIsExact(h.context.value);
  }

  lemma PartsInFront(a: seq<Byte>, b: seq<Byte>, c: seq<Byte>, rest: seq<Byte>)
    ensures a + (b + c) + rest == a + (b + (c + rest))
  {}

  /** No encoding is a prefix of another one: whatever follows them, equal buffers hold equal
      headers. With nothing following, distinct headers have distinct hash preimages. */
  lemma EncodingsArePrefixFree<H(!new)>(
    k: InnerCodec<H>, h1: AllegroHeader<H>, h2: AllegroHeader<H>, rest1: seq<Byte>, rest2: seq<Byte>)
    requires k.Valid() && ReportedLength(k, h1) <= U64_MAX && ReportedLength(k, h2) <= U64_MAX
    ensures EncodeAllegroHeader(k, h1) + rest1 == EncodeAllegroHeader(k, h2) + rest2 <==> h1 == h2 && rest1 == rest2
    ensures EncodeAllegroHeader(k, h1) <= EncodeAllegroHeader(k, h2) <==> h1 == h2
    ensures EncodeAllegroHeader(k, h1) == EncodeAllegroHeader(k, h2) <==> h1 == h2
  {
    AllegroHeaderRoundTrip(k, h1, rest1);
    AllegroHeaderRoundTrip(k, h2, rest2);
    var e1, e2 := EncodeAllegroHeader(k, h1), EncodeAllegroHeader(k, h2);
    if e1 <= e2 {
      AllegroHeaderRoundTrip(k, h1, e2[|e1|..]);
      AllegroHeaderRoundTrip(k, h2, []);
      assert e1 + e2[|e1|..] == e2 + [];
    }
  }
}
