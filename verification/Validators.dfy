/** The validator set: how it is held, how a node derives it from its own command line, how the
    genesis generator writes it to a file, and how a node loads it back. */
module Validators {
  import opened Basics

  type U8 = x: int | 0 <= x < 256
  type U16 = x: int | 0 <= x < 0x1_0000

  type Ip = seq<Byte>
  datatype Socket = Socket(ip: Ip, port: U16)
  datatype Address = Asymmetric(ingress: Socket, egress: Socket)
  datatype ValidatorEntry = ValidatorEntry(publicKey: Key, ingress: Socket, egress: Ip)

  type ValidatorSet = map<Key, Address>

  /** The library conversions the two routes go through: seeds to keys, and the text forms. */
  datatype Codecs = Codecs(
    fromSeed: U64 -> Key,
    hexEncode: Key -> string,
    hexDecode: string -> Option<seq<Byte>>,
    decodeKey: seq<Byte> -> Option<Key>,
    format: Socket -> string,
    parse: string -> Option<Socket>)
  {
    ghost predicate Valid() {
      && (forall i: U64, j: U64 :: fromSeed(i) == fromSeed(j) ==> i == j)
      && (forall i: U64 :: decodeKey(fromSeed(i)) == Some(fromSeed(i)))
      && (forall k: Key :: hexDecode(hexEncode(k)) == Some(k))
      && (forall s: Socket :: parse(format(s)) == Some(s))
    }
  }

  // ── The set ──

  function AddressOf(e: ValidatorEntry): Address {
    Asymmetric(e.ingress, Socket(e.egress, 0))
  }

  /** Each key holds the address of the last entry that carries it: where to dial it, and where it
      comes from, on any port. */
  ghost predicate Holds(set_: ValidatorSet, entries: seq<ValidatorEntry>) {
    && (forall j | 0 <= j < |entries| :: entries[j].publicKey in set_)
    && (forall k | k in set_ :: exists j ::
         IsLastOf(entries, k, j) && set_[k] == Asymmetric(entries[j].ingress, Socket(entries[j].egress, 0)))
  }

  ghost predicate IsLastOf(entries: seq<ValidatorEntry>, k: Key, j: int) {
    && 0 <= j < |entries|
    && entries[j].publicKey == k
    && forall i | j < i < |entries| :: entries[i].publicKey != k
  }

  /** The entries alone determine the set. */
  lemma HoldsDetermines(a: ValidatorSet, b: ValidatorSet, entries: seq<ValidatorEntry>)
    requires Holds(a, entries) && Holds(b, entries)
    ensures a == b
  {
    assert a.Keys == b.Keys;
    forall k | k in a
      ensures a[k] == b[k]
    {
      var i :| IsLastOf(entries, k, i) && a[k] == AddressOf(entries[i]);
      var j :| IsLastOf(entries, k, j) && b[k] == AddressOf(entries[j]);
      assert i == j;
    }
  }

  lemma HoldsOneMore(set_: ValidatorSet, entries: seq<ValidatorEntry>, e: ValidatorEntry)
    requires Holds(set_, entries)
    ensures Holds(set_[e.publicKey := AddressOf(e)], entries + [e])
  {
    var more, after := entries + [e], set_[e.publicKey := AddressOf(e)];
    forall k | k in after
      ensures exists j :: IsLastOf(more, k, j) && after[k] == Asymmetric(more[j].ingress, Socket(more[j].egress, 0))
    {
      if k == e.publicKey {
        assert IsLastOf(more, k, |entries|);
      } else {
        var j :| IsLastOf(entries, k, j) && set_[k] == AddressOf(entries[j]);
        assert IsLastOf(more, k, j);
      }
    }
  }

  method FromEntries(entries: seq<ValidatorEntry>) returns (set_: ValidatorSet)
    ensures Holds(set_, entries)
  {
    set_ := map[];
    for n := 0 to |entries|
      invariant Holds(set_, entries[..n])
    {
      HoldsOneMore(set_, entries[..n], entries[n]);
      assert entries[..n + 1] == entries[..n] + [entries[n]];
      set_ := set_[entries[n].publicKey := AddressOf(entries[n])];
    }
    assert entries[..|entries|] == entries;
  }

  /** Every key once. */
  method Keys(set_: ValidatorSet) returns (keys: seq<Key>)
    ensures forall i, j | 0 <= i < j < |keys| :: keys[i] != keys[j]
    ensures forall k :: k in keys <==> k in set_
  {
    keys := [];
    var rest := set_.Keys;
    while rest != {}
      invariant forall i, j | 0 <= i < j < |keys| :: keys[i] != keys[j]
      invariant forall k :: k in set_ <==> k in rest || k in keys
      invariant forall k | k in rest :: k !in keys
      decreases |rest|
    {
      var k :| k in rest;
      rest := rest - {k};
      keys := keys + [k];
    }
  }

  // ── Derivation from the command line ──

  datatype ConsensusArgs = ConsensusArgs(node: U8, listen: Socket, peers: seq<Socket>)

  /** The number of validators, in u8 arithmetic: the peer count is truncated, and adding the
      node itself must not overflow. */
  function NumValidators(args: ConsensusArgs): Option<U8> {
    var peers := |args.peers| % 256;
    if peers == 255 then None else Some(1 + peers)
  }

  /** The address the node assigns to index `i`; `None` is an out-of-bounds panic. */
  function AddressAt(args: ConsensusArgs, i: nat): Option<Socket> {
    if i == args.node then Some(args.listen)
    else
      var at := if i < args.node then i else i - 1;
      if at < |args.peers| then Some(args.peers[at]) else None
  }

  predicate DerivationPanics(args: ConsensusArgs) {
    NumValidators(args).None?
    || exists i | 0 <= i < NumValidators(args).value :: AddressAt(args, i).None?
  }

  function DerivedEntries(c: Codecs, args: ConsensusArgs): seq<ValidatorEntry>
    requires !DerivationPanics(args)
  {
    seq(NumValidators(args).value, i requires 0 <= i < NumValidators(args).value =>
      var addr := AddressAt(args, i).value;
      ValidatorEntry(c.fromSeed(i), addr, addr.ip))
  }

  /** The listed validators: index, address and the key of the index. */
  function EntriesFor(c: Codecs, sockets: seq<Socket>): seq<ValidatorEntry>
    requires |sockets| <= U64_MAX
  {
    seq(|sockets|, i requires 0 <= i < |sockets| => ValidatorEntry(c.fromSeed(i), sockets[i], sockets[i].ip))
  }

  /** Exactly when the derivation is free of overflow and of out-of-bounds indexing. With 256
      peers or more it is free of both for every node, but only because the count is truncated. */
  lemma DerivationIsSafeExactly(args: ConsensusArgs)
    ensures !DerivationPanics(args) <==>
            |args.peers| % 256 != 255 && (args.node <= |args.peers| || |args.peers| >= 256)
    ensures !DerivationPanics(args) ==>
            (NumValidators(args).value == 1 + |args.peers| <==> |args.peers| <= 254)
  {
    if |args.peers| % 256 != 255 && !(args.node <= |args.peers| || |args.peers| >= 256) {
      assert AddressAt(args, |args.peers|).None?;
    }
  }

  /** Whichever node it is, splicing its own address back into its list of peers rebuilds the
      common list. */
  lemma EveryNodeDerivesTheList(c: Codecs, sockets: seq<Socket>, i: nat)
    requires 1 <= |sockets| <= 255 && i < |sockets|
    ensures var args := ConsensusArgs(i, sockets[i], sockets[..i] + sockets[i + 1..]);
            !DerivationPanics(args) && DerivedEntries(c, args) == EntriesFor(c, sockets)
  {
    var args := ConsensusArgs(i, sockets[i], sockets[..i] + sockets[i + 1..]);
    DerivationIsSafeExactly(args);
    forall j | 0 <= j < |sockets|
      ensures DerivedEntries(c, args)[j] == EntriesFor(c, sockets)[j]
    {
      assert AddressAt(args, j) == Some(sockets[j]);
    }
  }

  /** Genesis validators win; the command line is only read when there are none. */
  method BuildValidatorSet(c: Codecs, args: ConsensusArgs, genesis: ValidatorSet) returns (set_: ValidatorSet)
    requires genesis == map[] ==> !DerivationPanics(args)
    ensures genesis != map[] ==> set_ == genesis
    ensures genesis == map[] ==> Holds(set_, DerivedEntries(c, args))
  {
    if genesis != map[] {
      return genesis;
    }
    set_ := FromEntries(DerivedEntries(c, args));
  }

  // ── Genesis generation ──

  datatype ValidatorsArg = Count(n: U16) | Listed(texts: seq<string>)
  datatype GenesisError = PortOverflow | InvalidSocket(text: string) | TooManyValidators

  datatype FileEntry = FileEntry(index: U16, publicKey: string, ingress: string, egress: string)

  const LOCALHOST: Ip := [127, 0, 0, 1]

  function ParseAll(c: Codecs, texts: seq<string>): Result<seq<string>, GenesisError> {
    if texts == [] then Ok([])
    else if c.parse(texts[0]).None? then Err(InvalidSocket(texts[0]))
    else
      var rest :- ParseAll(c, texts[1..]);
      Ok([c.format(c.parse(texts[0]).value)] + rest)
  }

  /** The socket texts; a port the guard lets through is a u16 by its type. */
  function SocketTexts(c: Codecs, arg: ValidatorsArg, basePort: U16): Result<seq<string>, GenesisError> {
    var texts :-
      match arg
      case Count(n) =>
        if n > 0 && basePort + (n - 1) >= 0x1_0000 then Err(PortOverflow)
        else Ok(seq(n, i requires 0 <= i < n => c.format(Socket(LOCALHOST, basePort + i))))
      case Listed(given) => ParseAll(c, given);
    if |texts| > 0xFFFF then Err(TooManyValidators) else Ok(texts)
  }

  method GenerateValidators(c: Codecs, arg: ValidatorsArg, basePort: U16)
    returns (r: Result<seq<FileEntry>, GenesisError>)
    ensures match SocketTexts(c, arg, basePort)
            case Err(e) => r == Err(e)
            case Ok(texts) =>
              r.Ok? && |r.value| == |texts| <= 0xFFFF
              && forall i | 0 <= i < |texts| ::
                   r.value[i] == FileEntry(i, c.hexEncode(c.fromSeed(i)), texts[i], texts[i])
  {
    var texts :- SocketTexts(c, arg, basePort);
    var validators := [];
    for i := 0 to |texts|
      invariant |validators| == i
      invariant forall j | 0 <= j < i ::
        validators[j] == FileEntry(j, c.hexEncode(c.fromSeed(j)), texts[j], texts[j])
    {
      validators := validators + [FileEntry(i, c.hexEncode(c.fromSeed(i)), texts[i], texts[i])];
    }
    r := Ok(validators);
  }

  // ── Loading ──

  datatype LoadError = BadHex(index: U16) | BadKey(index: U16) | BadIngress(index: U16) | BadEgress(index: U16)

  function LoadEntry(c: Codecs, e: FileEntry): Result<ValidatorEntry, LoadError> {
    var bytes := c.hexDecode(e.publicKey);
    if bytes.None? then Err(BadHex(e.index))
    else if c.decodeKey(bytes.value).None? then Err(BadKey(e.index))
    else if c.parse(e.ingress).None? then Err(BadIngress(e.index))
    else if c.parse(e.egress).None? then Err(BadEgress(e.index))
    else Ok(ValidatorEntry(c.decodeKey(bytes.value).value, c.parse(e.ingress).value, c.parse(e.egress).value.ip))
  }

  /** The key a file entry carries, if its text is one. */
  function KeyIn(c: Codecs, e: FileEntry): Option<Key> {
    var bytes := c.hexDecode(e.publicKey);
    if bytes.None? then None else c.decodeKey(bytes.value)
  }

  /** The first field of the entry that is malformed, in the order key, ingress, egress. */
  predicate FirstFault(c: Codecs, e: FileEntry, error: LoadError) {
    && error.index == e.index
    && match error
       case BadHex(_) => c.hexDecode(e.publicKey).None?
       case BadKey(_) => c.hexDecode(e.publicKey).Some? && KeyIn(c, e).None?
       case BadIngress(_) => KeyIn(c, e).Some? && c.parse(e.ingress).None?
       case BadEgress(_) => KeyIn(c, e).Some? && c.parse(e.ingress).Some? && c.parse(e.egress).None?
  }

  predicate Parses(c: Codecs, e: FileEntry) {
    KeyIn(c, e).Some? && c.parse(e.ingress).Some? && c.parse(e.egress).Some?
  }

  /** The set holds the keys of the file, each with the two addresses of the last entry that carries
      it: the ingress as it is written, and the host of the egress on any port. */
  ghost predicate HoldsFile(c: Codecs, set_: ValidatorSet, file: seq<FileEntry>) {
    && (forall j | 0 <= j < |file| :: Parses(c, file[j]) && KeyIn(c, file[j]).value in set_)
    && (forall k | k in set_ :: exists j ::
         IsLastIn(c, file, k, j)
         && set_[k] == Asymmetric(c.parse(file[j].ingress).value, Socket(c.parse(file[j].egress).value.ip, 0)))
  }

  ghost predicate IsLastIn(c: Codecs, file: seq<FileEntry>, k: Key, j: int) {
    && 0 <= j < |file|
    && KeyIn(c, file[j]) == Some(k) && Parses(c, file[j])
    && forall i | j < i < |file| :: KeyIn(c, file[i]) != Some(k)
  }

  lemma LoadEntryIsExact(c: Codecs, e: FileEntry)
    ensures match LoadEntry(c, e)
            case Ok(v) => Parses(c, e)
              && v == ValidatorEntry(KeyIn(c, e).value, c.parse(e.ingress).value, c.parse(e.egress).value.ip)
            case Err(error) => FirstFault(c, e, error)
    ensures LoadEntry(c, e).Ok? <==> Parses(c, e)
  {}

  lemma LoadedHoldsFile(c: Codecs, file: seq<FileEntry>, set_: ValidatorSet)
    requires (forall j | 0 <= j < |file| :: LoadEntry(c, file[j]).Ok?) && Holds(set_, Loaded(c, file))
    ensures HoldsFile(c, set_, file)
  {
    forall j | 0 <= j < |file|
      ensures Parses(c, file[j]) && KeyIn(c, file[j]) == Some(Loaded(c, file)[j].publicKey)
    {
      LoadEntryIsExact(c, file[j]);
    }
    forall k | k in set_
      ensures exists j ::
                IsLastIn(c, file, k, j)
                && set_[k] == Asymmetric(c.parse(file[j].ingress).value, Socket(c.parse(file[j].egress).value.ip, 0))
    {
      var entries := Loaded(c, file);
      var j :| IsLastOf(entries, k, j) && set_[k] == Asymmetric(entries[j].ingress, Socket(entries[j].egress, 0));
      LoadEntryIsExact(c, file[j]);
      assert IsLastIn(c, file, k, j);
    }
  }

  /** Parses every entry, or stops at the first malformed one with the error of its first malformed
      field. A file without a validators array gives the empty set. */
  method LoadValidators(c: Codecs, file: Option<seq<FileEntry>>) returns (r: Result<ValidatorSet, LoadError>)
    ensures file.None? ==> r == Ok(map[])
    ensures file.Some? && r.Ok? ==> HoldsFile(c, r.value, file.value)
    ensures file.Some? && r.Err? ==>
              exists n :: 0 <= n < |file.value| && FirstFault(c, file.value[n], r.error)
                && forall j | 0 <= j < n :: Parses(c, file.value[j])
    ensures file.Some? && r.Ok? ==>
              (forall j | 0 <= j < |file.value| :: LoadEntry(c, file.value[j]).Ok?)
              && Holds(r.value, Loaded(c, file.value))
  {
    if file.None? {
      return Ok(map[]);
    }
    var entries := file.value;
    var parsed := [];
    for n := 0 to |entries|
      invariant forall j | 0 <= j < n :: LoadEntry(c, entries[j]).Ok? && Parses(c, entries[j])
      invariant parsed == Loaded(c, entries[..n])
    {
      LoadEntryIsExact(c, entries[n]);
      var e := LoadEntry(c, entries[n]);
      if e.Err? {
        return Err(e.error);
      }
      parsed := parsed + [e.value];
    }
    assert entries[..|entries|] == entries;
    var set_ := FromEntries(parsed);
    LoadedHoldsFile(c, entries, set_);
    r := Ok(set_);
  }

  function Loaded(c: Codecs, entries: seq<FileEntry>): seq<ValidatorEntry>
    requires forall j | 0 <= j < |entries| :: LoadEntry(c, entries[j]).Ok?
  {
    seq(|entries|, j requires 0 <= j < |entries| => LoadEntry(c, entries[j]).value)
  }

  // ── The two routes ──

  /** A file that writes out keys and, for each, one socket to dial and one to expect it from, loads
      back as those. */
  lemma FileRoundTrip(c: Codecs, ingress: seq<Socket>, egress: seq<Socket>, file: seq<FileEntry>)
    requires c.Valid() && |ingress| == |egress| == |file| <= 0xFFFF
    requires forall i | 0 <= i < |file| ::
               file[i].publicKey == c.hexEncode(c.fromSeed(i))
               && file[i].ingress == c.format(ingress[i]) && file[i].egress == c.format(egress[i])
    ensures forall i | 0 <= i < |file| :: LoadEntry(c, file[i]).Ok?
    ensures forall i | 0 <= i < |file| :: Loaded(c, file)[i] == ValidatorEntry(c.fromSeed(i), ingress[i], egress[i].ip)
  {
    forall i | 0 <= i < |file|
      ensures LoadEntry(c, file[i]) == Ok(ValidatorEntry(c.fromSeed(i), ingress[i], egress[i].ip))
    {
      assert c.hexDecode(file[i].publicKey) == Some(c.fromSeed(i));
    }
  }

  /** What the generator writes for a list of sockets loads back as that list. */
  lemma GenesisRoundTrip(c: Codecs, sockets: seq<Socket>, file: seq<FileEntry>)
    requires c.Valid() && |sockets| == |file| <= 0xFFFF && IsFileOf(c, sockets, file)
    ensures forall i | 0 <= i < |file| :: LoadEntry(c, file[i]).Ok?
    ensures Loaded(c, file) == EntriesFor(c, sockets)
  {
    FileRoundTrip(c, sockets, sockets, file);
  }

  /** The file the generator writes for the printed sockets. */
  predicate IsFileOf(c: Codecs, sockets: seq<Socket>, file: seq<FileEntry>)
    requires |sockets| == |file| <= 0xFFFF
  {
    forall i | 0 <= i < |file| ::
      file[i] == FileEntry(i, c.hexEncode(c.fromSeed(i)), c.format(sockets[i]), c.format(sockets[i]))
  }

  /** The socket texts of a count are those of consecutive local ports, and no count the guard
      admits runs past the last port. */
  lemma CountedSockets(c: Codecs, n: U16, basePort: U16)
    ensures SocketTexts(c, Count(n), basePort).Ok? <==> n == 0 || basePort + n <= 0x1_0000
    ensures SocketTexts(c, Count(n), basePort).Err? ==> SocketTexts(c, Count(n), basePort) == Err(PortOverflow)
    ensures SocketTexts(c, Count(n), basePort).Ok? ==>
            |SocketTexts(c, Count(n), basePort).value| == n
            && forall i | 0 <= i < n ::
                 basePort + i < 0x1_0000
                 && SocketTexts(c, Count(n), basePort).value[i] == c.format(Socket(LOCALHOST, basePort + i))
  {}

  /** A list is taken over, each text printed anew from what it parses to, or refused for the first
      one that does not parse. */
  lemma {:induction false} ListedTexts(c: Codecs, texts: seq<string>)
    ensures match ParseAll(c, texts)
            case Ok(printed) =>
              && |printed| == |texts|
              && (forall i | 0 <= i < |texts| ::
                    c.parse(texts[i]).Some? && printed[i] == c.format(c.parse(texts[i]).value))
            case Err(e) =>
              exists n :: 0 <= n < |texts| && c.parse(texts[n]).None? && e == InvalidSocket(texts[n])
                && forall i | 0 <= i < n :: c.parse(texts[i]).Some?
  {
    if texts != [] {
      ListedTexts(c, texts[1..]);
      if ParseAll(c, texts).Err? && c.parse(texts[0]).Some? {
        var n :| 0 <= n < |texts[1..]| && c.parse(texts[1..][n]).None?
          && ParseAll(c, texts[1..]) == Err(InvalidSocket(texts[1..][n]))
          && forall i | 0 <= i < n :: c.parse(texts[1..][i]).Some?;
        assert texts[n + 1] == texts[1..][n];
        forall i | 0 <= i < n + 1
          ensures c.parse(texts[i]).Some?
        {
          assert i > 0 ==> texts[i] == texts[1..][i - 1];
        }
      }
    }
  }

  /** So a list is accepted exactly if it is not too long and every text parses; and any texts for
      the same sockets give the same printed list. */
  lemma ListedSockets(c: Codecs, texts: seq<string>, basePort: U16)
    ensures SocketTexts(c, Listed(texts), basePort).Ok? <==>
            |texts| <= 0xFFFF && forall i | 0 <= i < |texts| :: c.parse(texts[i]).Some?
    ensures SocketTexts(c, Listed(texts), basePort).Err? && (forall i | 0 <= i < |texts| :: c.parse(texts[i]).Some?) ==>
              SocketTexts(c, Listed(texts), basePort) == Err(TooManyValidators)
    ensures SocketTexts(c, Listed(texts), basePort).Ok? ==>
            var printed := SocketTexts(c, Listed(texts), basePort).value;
            |printed| == |texts| && forall i | 0 <= i < |texts| :: printed[i] == c.format(c.parse(texts[i]).value)
  {
    ListedTexts(c, texts);
  }

  lemma SetOfSockets(c: Codecs, sockets: seq<Socket>, set_: ValidatorSet)
    requires c.Valid() && |sockets| <= 0xFFFF && Holds(set_, EntriesFor(c, sockets))
    ensures forall j | 0 <= j < |sockets| ::
              c.fromSeed(j) in set_
              && set_[c.fromSeed(j)] == Asymmetric(sockets[j], Socket(sockets[j].ip, 0))
    ensures forall k | k in set_ :: exists j :: 0 <= j < |sockets| && k == c.fromSeed(j)
  {
    var entries := EntriesFor(c, sockets);
    forall j | 0 <= j < |sockets|
      ensures c.fromSeed(j) in set_
              && set_[c.fromSeed(j)] == Asymmetric(sockets[j], Socket(sockets[j].ip, 0))
    {
      assert entries[j].publicKey == c.fromSeed(j);
      var i :| IsLastOf(entries, c.fromSeed(j), i)
        && set_[c.fromSeed(j)] == Asymmetric(entries[i].ingress, Socket(entries[i].egress, 0));
      assert i == j;
    }
    forall k | k in set_
      ensures exists j :: 0 <= j < |sockets| && k == c.fromSeed(j)
    {
      var j :| IsLastOf(entries, k, j);
      assert k == c.fromSeed(j);
    }
  }

  /** Both routes give every node the same key-to-address map: loading the file generated for the
      sockets, or deriving from the command line of any node `i`. */
  lemma BothRoutesAgree(
    c: Codecs, sockets: seq<Socket>, file: seq<FileEntry>, i: nat, fromGenesis: ValidatorSet, fromArgs: ValidatorSet)
    requires c.Valid() && 1 <= |sockets| <= 255 && i < |sockets| == |file|
    requires IsFileOf(c, sockets, file)
    requires (forall j | 0 <= j < |file| :: LoadEntry(c, file[j]).Ok?) ==> Holds(fromGenesis, Loaded(c, file))
    requires var args := ConsensusArgs(i, sockets[i], sockets[..i] + sockets[i + 1..]);
             !DerivationPanics(args) ==> Holds(fromArgs, DerivedEntries(c, args))
    ensures fromGenesis == fromArgs
    ensures forall j | 0 <= j < |sockets| ::
              c.fromSeed(j) in fromArgs
              && fromArgs[c.fromSeed(j)] == Asymmetric(sockets[j], Socket(sockets[j].ip, 0))
    ensures forall k | k in fromArgs :: exists j :: 0 <= j < |sockets| && k == c.fromSeed(j)
  {
    GenesisRoundTrip(c, sockets, file);
    EveryNodeDerivesTheList(c, sockets, i);
    HoldsDetermines(fromGenesis, fromArgs, EntriesFor(c, sockets));
    SetOfSockets(c, sockets, fromArgs);
  }
}
