/** The timestamp rule of a proposal and what it amounts to along a chain, for the two ways a
    payload builder may report the milliseconds of the block it built. */
module Timestamps {
  import opened Basics

  /** The largest number of seconds whose milliseconds still fit. */
  const MAX_SECONDS: int := U64_MAX / 1000

  /** The proposer's rule, in saturating milliseconds. */
  function NextMillis(now: U64, parentMillis: U64): U64 {
    Max(now, SaturatingAdd(parentMillis, 1))
  }

  /** The derivation both closures of the production builder apply to a block's seconds. */
  function ToMillis(seconds: U64): U64 {
    SaturatingMul(seconds, 1000)
  }

  // ── The production builder records seconds * 1000 ──

  function NextSeconds(now: U64, parentSeconds: U64): U64 {
    NextMillis(now, ToMillis(parentSeconds)) / 1000
  }

  /** Re-expanding the seconds loses exactly the progress made inside a second: the rule is then
      a plain maximum of seconds. This is so precisely for parents whose milliseconds fit. */
  lemma NextSecondsIsMax(now: U64, parentSeconds: U64)
    ensures NextSeconds(now, parentSeconds) == Max(now / 1000, parentSeconds) <==> parentSeconds <= MAX_SECONDS
    ensures NextSeconds(now, parentSeconds) <= MAX_SECONDS
    ensures ToMillis(parentSeconds) / 1000 == parentSeconds <==> parentSeconds <= MAX_SECONDS
  {}

  /** Recorded milliseconds never fall, and rise exactly when the clock has entered a later second. */
  lemma RecordedMillisRise(now: U64, parentSeconds: U64)
    requires parentSeconds <= MAX_SECONDS
    ensures ToMillis(NextSeconds(now, parentSeconds)) >= ToMillis(parentSeconds)
    ensures ToMillis(NextSeconds(now, parentSeconds)) > ToMillis(parentSeconds) <==> now / 1000 > parentSeconds
    ensures SaturatingAdd(ToMillis(parentSeconds), 1) == ToMillis(parentSeconds) + 1
  {
    NextSecondsIsMax(now, parentSeconds);
  }

  /** Seconds of the last block after proposals made at the given clock readings. */
  function SecondsAfter(genesis: U64, clocks: seq<U64>): U64 {
    if clocks == [] then genesis
    else NextSeconds(clocks[|clocks| - 1], SecondsAfter(genesis, clocks[..|clocks| - 1]))
  }

  /** Closed form: the largest of the genesis seconds and the floored clocks. */
  lemma {:induction false} SecondsClosedForm(genesis: U64, clocks: seq<U64>)
    requires genesis <= MAX_SECONDS
    ensures SecondsAfter(genesis, clocks) >= genesis
    ensures forall j | 0 <= j < |clocks| :: SecondsAfter(genesis, clocks) >= clocks[j] / 1000
    ensures SecondsAfter(genesis, clocks) == genesis
            || exists j | 0 <= j < |clocks| :: SecondsAfter(genesis, clocks) == clocks[j] / 1000
    ensures SecondsAfter(genesis, clocks) <= MAX_SECONDS
  {
    if clocks != [] {
      var last := |clocks| - 1;
      SecondsClosedForm(genesis, clocks[..last]);
      NextSecondsIsMax(clocks[last], SecondsAfter(genesis, clocks[..last]));
    }
  }

  // ── A builder that keeps the requested milliseconds ──

  function MillisAfter(genesis: U64, clocks: seq<U64>): U64 {
    if clocks == [] then genesis
    else NextMillis(clocks[|clocks| - 1], MillisAfter(genesis, clocks[..|clocks| - 1]))
  }

  /** What proposal `j` forces on the chain by its end: its clock, and one millisecond for every
      proposal after it. Term 0 is the genesis. */
  function Term(genesis: U64, clocks: seq<U64>, j: nat): int
    requires j <= |clocks|
  {
    (if j == 0 then genesis else clocks[j - 1]) + (|clocks| - j)
  }

  function LargestTerm(genesis: U64, clocks: seq<U64>, upto: nat): int
    requires upto <= |clocks|
  {
    if upto == 0 then Term(genesis, clocks, 0)
    else Max(LargestTerm(genesis, clocks, upto - 1), Term(genesis, clocks, upto))
  }

  lemma {:induction false} LaterProposalAddsOne(genesis: U64, clocks: seq<U64>, upto: nat)
    requires upto < |clocks|
    ensures LargestTerm(genesis, clocks, upto) == LargestTerm(genesis, clocks[..|clocks| - 1], upto) + 1
  {
    if upto > 0 {
      LaterProposalAddsOne(genesis, clocks, upto - 1);
    }
  }

  /** Closed form: the largest term, cut off at the largest u64; so the two agree exactly while
      that term fits. */
  lemma {:induction false} MillisClosedForm(genesis: U64, clocks: seq<U64>)
    ensures MillisAfter(genesis, clocks) == Min(LargestTerm(genesis, clocks, |clocks|), U64_MAX)
    ensures MillisAfter(genesis, clocks) == LargestTerm(genesis, clocks, |clocks|)
            <==> LargestTerm(genesis, clocks, |clocks|) <= U64_MAX
  {
    if clocks != [] {
      var last := |clocks| - 1;
      MillisClosedForm(genesis, clocks[..last]);
      LaterProposalAddsOne(genesis, clocks, last);
    }
  }

  /** What such a builder's blocks carry: the seconds and milliseconds of the request. */
  datatype Stamp = Stamp(seconds: U64, millis: U64)

  function StampAfter(genesisSeconds: U64, clocks: seq<U64>): Stamp {
    if clocks == [] then Stamp(genesisSeconds, ToMillis(genesisSeconds))
    else
      var millis := NextMillis(clocks[|clocks| - 1], StampAfter(genesisSeconds, clocks[..|clocks| - 1]).millis);
      Stamp(millis / 1000, millis)
  }

  /** Both fields follow one recurrence, and agree on every block: on the built ones always, and on
      genesis exactly when its milliseconds fit. So no validator's comparison of the two fails. */
  lemma {:induction false} StampsAgree(genesisSeconds: U64, clocks: seq<U64>)
    ensures StampAfter(genesisSeconds, clocks).millis == MillisAfter(ToMillis(genesisSeconds), clocks)
    ensures StampAfter(genesisSeconds, clocks).millis / 1000 == StampAfter(genesisSeconds, clocks).seconds
            <==> clocks != [] || genesisSeconds <= MAX_SECONDS
  {
    if clocks != [] {
      StampsAgree(genesisSeconds, clocks[..|clocks| - 1]);
    }
  }

  /** The seconds pass the engine's relaxed check on every parent whose own fields agree. */
  lemma StampedSecondsNeverFall(genesisSeconds: U64, clocks: seq<U64>, now: U64)
    ensures StampAfter(genesisSeconds, clocks + [now]).seconds >= StampAfter(genesisSeconds, clocks).seconds
            <==> clocks != [] || genesisSeconds <= MAX_SECONDS
  {
    assert (clocks + [now])[..|clocks|] == clocks;
    StampsAgree(genesisSeconds, clocks);
  }

  /** One more proposal strictly increases the milliseconds exactly while the largest term so far
      is below the largest u64. */
  lemma MillisStrictlyIncrease(genesis: U64, clocks: seq<U64>, now: U64)
    ensures MillisAfter(genesis, clocks + [now]) > MillisAfter(genesis, clocks)
            <==> LargestTerm(genesis, clocks, |clocks|) < U64_MAX
  {
    assert (clocks + [now])[..|clocks|] == clocks;
    MillisClosedForm(genesis, clocks);
  }
}
