// Publisher parameters and their effective values (x/registry/types.go).
module PublisherParams {
  import opened Base

  datatype Params = Params(
    minVerifierCount: int,
    commitWindow: int,
    submissionWindow: int,
    roundInterval: int,
    assignmentDelayMax: int,
    cooldownBase: int,
    publisherReward: int,
    verifierReward: int,
    verifierBaseShareBps: int,
    requiredLinks: int,
    publisherMinRewardBps: int,
    emissionSupply: int,
    operatorReserveBps: int,
    publisherEmissionBps: int,
    verifierEmissionBps: int,
    emissionHours: int,
    revokeThreshold: int,
    suspendThreshold: int,
    suspendRounds: int,
    drandEnabled: bool,
    drandGenesis: int,
    drandPeriod: int,
    drandOffset: int)
  {
    /** The part of Validate that concerns the fields above. */
    predicate Valid() {
      && minVerifierCount > 0
      && 0 < commitWindow < submissionWindow
      && 0 < assignmentDelayMax <= roundInterval
      && cooldownBase > 0
      && publisherReward >= 0 && verifierReward >= 0
      && 0 <= verifierBaseShareBps <= 10000
      && requiredLinks >= 0
      && 0 <= publisherMinRewardBps <= 10000
      && emissionSupply >= 0
      && 0 <= operatorReserveBps <= 10000
      && 0 <= publisherEmissionBps <= 10000
      && 0 <= verifierEmissionBps <= 10000
      && emissionHours >= 0
      && operatorReserveBps + publisherEmissionBps + verifierEmissionBps <= 10000
      && revokeThreshold >= 0 && suspendThreshold >= 0 && suspendRounds >= 0
      && (drandEnabled ==> DrandOffset() <= roundInterval)
    }

    /** The fields are int64, a round interval is short enough for a time.Duration, and amounts are at most 2^192. */
    predicate InRange() {
      && submissionWindow <= MAX_INT64 && cooldownBase <= MAX_INT64 && roundInterval <= MAX_DURATION
      && emissionSupply <= MAX_AMOUNT && publisherReward <= MAX_AMOUNT && verifierReward <= MAX_AMOUNT
    }

    // Zero means "use the default" in every accessor below, except for the base share, where it means no base share.

    function RequiredLinks(): int {
      if requiredLinks > 0 then requiredLinks else 15
    }

    function MinRewardBps(): int {
      if 0 < publisherMinRewardBps <= 10000 then publisherMinRewardBps else 1000
    }

    function BaseShareBps(): int {
      if verifierBaseShareBps < 0 || verifierBaseShareBps > 10000 then 4000 else verifierBaseShareBps
    }

    function Supply(): (r: nat)
      ensures r > 0
    {
      if emissionSupply > 0 then emissionSupply else 1_000_000_000_000_000
    }

    function PublisherBps(): (r: nat)
      ensures r > 0
    {
      if publisherEmissionBps > 0 then publisherEmissionBps else 1000
    }

    function VerifierBps(): (r: nat)
      ensures r > 0
    {
      if verifierEmissionBps > 0 then verifierEmissionBps else 5000
    }

    function EmissionHours(): (r: nat)
      ensures r > 0
    {
      if emissionHours > 0 then emissionHours else 876000
    }

    function RevokeThreshold(): (r: int)
      ensures r > 0
    {
      if revokeThreshold > 0 then revokeThreshold else 3
    }

    function SuspendThreshold(): int {
      if suspendThreshold > 0 then suspendThreshold else 3
    }

    function SuspendRounds(): int {
      if suspendRounds > 0 then suspendRounds else 3
    }

    function DrandGenesis(): (r: int)
      ensures r > 0
    {
      if drandGenesis > 0 then drandGenesis else 1_692_803_367
    }

    function DrandPeriod(): (r: int)
      ensures r > 0
    {
      if drandPeriod > 0 then drandPeriod else 3
    }

    function DrandOffset(): (r: int)
      ensures r > 0
    {
      if drandOffset > 0 then drandOffset else 60
    }
  }

  const DEFAULT_PARAMS := Params(3, 300, 600, 3600, 3600, 604800, 1_000_000, 500_000, 4000, 15, 1000,
                                 1_000_000_000_000_000, 4000, 1000, 5000, 876000, 3, 3, 3,
                                 true, 1_692_803_367, 3, 60)

  /** A field that is not positive gives way to its default. */
  function OrDefault(x: int, d: int): int {
    if x > 0 then x else d
  }

  /** Every effective value is the field itself or, when that is zero, the default; only the base share may be zero. */
  lemma EffectiveValues(p: Params)
    requires p.Valid()
    ensures var d := DEFAULT_PARAMS;
      && p.RequiredLinks() == OrDefault(p.requiredLinks, d.requiredLinks)
      && p.MinRewardBps() == OrDefault(p.publisherMinRewardBps, d.publisherMinRewardBps)
      && p.BaseShareBps() == p.verifierBaseShareBps
      && p.Supply() == OrDefault(p.emissionSupply, d.emissionSupply)
      && p.PublisherBps() == OrDefault(p.publisherEmissionBps, d.publisherEmissionBps)
      && p.VerifierBps() == OrDefault(p.verifierEmissionBps, d.verifierEmissionBps)
      && p.EmissionHours() == OrDefault(p.emissionHours, d.emissionHours)
      && p.RevokeThreshold() == OrDefault(p.revokeThreshold, d.revokeThreshold)
      && p.SuspendThreshold() == OrDefault(p.suspendThreshold, d.suspendThreshold)
      && p.SuspendRounds() == OrDefault(p.suspendRounds, d.suspendRounds)
      && p.DrandGenesis() == OrDefault(p.drandGenesis, d.drandGenesis)
      && p.DrandPeriod() == OrDefault(p.drandPeriod, d.drandPeriod)
      && p.DrandOffset() == OrDefault(p.drandOffset, d.drandOffset)
  {
  }
}
