// The byte store of every reachable state (x/registry/keeper.go, verification_keeper.go).
module Storage {
  import opened Base
  import opened Arith
  import opened Domains
  import opened PublisherParams
  import opened StoreKeys
  import opened ChainState
  import opened DrandSchedule
  import opened Votes
  import opened Rounds
  import opened Assigning
  import opened Invariant
  import opened Chain
  import opened Guarantees
  import Registration
  import F = Finalization

  /** Every website has a primary domain of its own. */
  lemma OneSitePerPrimary(s: State, env: Env, a: string, b: string)
    requires Reachable(s, env) && a in s.websites && b in s.websites && env.primaryOf(a) == env.primaryOf(b)
    ensures a == b
  {
    ReachableInv(s, env);
    Registration.OnePerPrimary(SitesOf(s), env, a, b);
  }

  // What the keys of a reachable state look like.

  /** The environment accepts only domains that the chain's pattern matches. */
  ghost predicate PatternChecked(env: Env) {
    forall d :: env.validDomain(d) ==> ValidDomain(d)
  }

  /** Domains passed the check, metadata belongs to positive rounds, and beacon numbers fit an int64. */
  ghost predicate KeysOk(s: State, env: Env) {
    && (forall d :: d in s.websites ==> env.validDomain(d))
    && (forall r :: r in s.metas ==> 0 < r)
    && (forall n :: n in s.beacons ==> n <= MAX_INT64)
  }

  lemma RequiredFits(p: Params, r: int)
    requires r <= MAX_INT64 && RequiredRound(p, r).Some?
    ensures RequiredRound(p, r).value <= MAX_INT64
  {
    RequiredIsLatest(p, r, RequiredRound(p, r).value);
    BeaconNotBefore(p, RequiredRound(p, r).value);
  }

  /** Beacon n is emitted no earlier than n seconds into the epoch. */
  lemma BeaconNotBefore(p: Params, n: int)
    requires n >= 1
    ensures n <= BeaconTime(p, n)
  {
    MulMono(1, p.DrandPeriod(), n - 1);
  }

  lemma BeaconKeysOk(s: State, env: Env, m: BeaconMsg)
    requires Inv(s, env) && KeysOk(s, env) && BeaconStep(s, env, m).Ok?
    ensures KeysOk(BeaconStep(s, env, m).value, env)
  {
    var r := NextRoundStart(s.now, s.params.roundInterval);
    NextRoundStartIsNext(s.now, s.params.roundInterval);
    assert RequiredRound(s.params, r) == Some(m.round);
    RequiredFits(s.params, r);
  }

  lemma MessageKeysOk(s: State, env: Env, e: Event)
    requires Inv(s, env) && KeysOk(s, env) && IsMessage(e) && MessageStep(s, env, e).Ok?
    ensures KeysOk(MessageStep(s, env, e).value, env)
  {
    if e.SendBeacon? { BeaconKeysOk(s, env, e.beacon); } else { MessageFrame(s, env, e); }
  }

  lemma MessageFrame(s: State, env: Env, e: Event)
    requires IsMessage(e) && !e.SendBeacon? && MessageStep(s, env, e).Ok?
    ensures var t := MessageStep(s, env, e).value;
      && t.metas == s.metas && t.beacons == s.beacons
      && forall d :: d in t.websites ==> d in s.websites || env.validDomain(d)
  {
  }

  lemma EndBlockKeysOk(s: State, env: Env, anchor: string)
    requires Inv(s, env) && KeysOk(s, env) && EndBlockStep(s, env, anchor).Ok?
    ensures KeysOk(EndBlockStep(s, env, anchor).value, env)
  {
    EndBlockWebsites(s, env, anchor);
    F.FinalizeChanges(s);
    var v := BeforeAssignment(s, env, anchor);
    AssignFrame(v, env, anchor);
  }

  lemma AssignFrame(v: State, env: Env, anchor: string)
    requires AssignStep(v, env, anchor).Ok?
    ensures var u := AssignStep(v, env, anchor).value;
      && u.beacons == v.beacons && u.websites == v.websites
      && forall r :: r in u.metas ==> r in v.metas || 0 < r
  {
  }

  lemma StepKeysOk(s: State, env: Env, e: Event)
    requires Inv(s, env) && KeysOk(s, env) && Step(s, env, e).Ok?
    ensures KeysOk(Step(s, env, e).value, env)
  {
    if e.EndBlock? { EndBlockKeysOk(s, env, e.anchor); }
    else if !e.NextBlock? { MessageKeysOk(s, env, e); }
  }

  lemma {:induction false} RunKeysOk(genesis: State, env: Env, events: seq<Event>)
    requires Genesis(genesis)
    ensures KeysOk(Run(genesis, env, events), env)
  {
    if events != [] {
      var n := |events| - 1;
      RunKeysOk(genesis, env, events[..n]);
      var t := Run(genesis, env, events[..n]);
      ReachableOk(genesis, env, events[..n]);
      if Step(t, env, events[n]).Ok? { StepKeysOk(t, env, events[n]); }
    }
  }

  /** Every round on record fits an int64, every domain is free of NUL bytes, and every vote belongs to an assignment. */
  ghost predicate KeysFit(s: State) {
    && (forall d :: d in s.websites ==> NoNul(d))
    && (forall r :: r in s.metas ==> IsRound(r))
    && (forall n :: n in s.beacons ==> IsRound(n))
    && (forall k :: k in s.assignments ==> IsRound(k.round) && k.domain in s.websites)
    && (forall r :: r in s.unsettled ==> exists k :: k in s.assignments && k.round == r)
    && (forall v :: v in s.commits || v in s.submissions ==> AssignmentId(v.round, v.domain) in s.assignments)
  }

  lemma LastRoundFits(s: State, t0: int)
    requires ClockOk(s) && Since(s, t0) && s.lastRound.Some?
    ensures s.lastRound.value <= MAX_INT64
  {
  }

  lemma DomainsFit(s: State, env: Env)
    requires KeysOk(s, env) && PatternChecked(env)
    ensures forall d :: d in s.websites ==> NoNul(d)
  {
    forall d | d in s.websites
      ensures NoNul(d)
    {
      DomainHasNoNul(d);
    }
  }

  lemma RoundsFit(s: State, env: Env)
    requires KeysOk(s, env) && s.params.Valid() && (s.lastRound.Some? ==> s.lastRound.value <= MAX_INT64)
    requires MetasOk(s.metas, s.lastRound, s.beacons, s.params) && Scheduled(s.assignments, s.lastRound, s.params.roundInterval)
    ensures forall r :: r in s.metas ==> IsRound(r)
    ensures forall n :: n in s.beacons ==> IsRound(n)
    ensures forall k :: k in s.assignments ==> IsRound(k.round)
  {
  }

  lemma VotesAssigned(b: Ballots, docket: Docket, p: Params, env: Env)
    requires VotesOk(b, docket, p, env)
    ensures forall v :: v in b.commits || v in b.submissions ==> AssignmentId(v.round, v.domain) in docket
  {
    forall v | v in b.commits || v in b.submissions
      ensures AssignmentId(v.round, v.domain) in docket
    {
      assert v in b.commitLog && CommitOk(docket, p, v, b.commitLog[v]);
    }
  }

  lemma WaitingAssigned(docket: Docket, unsettled: set<int>)
    requires IndexExact(docket, unsettled)
    ensures forall r :: r in unsettled ==> exists k :: k in docket && k.round == r
  {
    forall r | r in unsettled
      ensures exists k :: k in docket && k.round == r
    {
      assert OpenRound(docket, r);
    }
  }

  /** The parts of the invariant that keys depend on. */
  lemma KeyParts(s: State, env: Env)
    requires Inv(s, env)
    ensures ClockOk(s) && IndexExact(s.assignments, s.unsettled) && VotesOk(BallotsOf(s), s.assignments, s.params, env)
    ensures MetasOk(s.metas, s.lastRound, s.beacons, s.params) && Scheduled(s.assignments, s.lastRound, s.params.roundInterval)
    ensures forall k :: k in s.assignments ==> k.domain in s.websites
  {
  }

  lemma ReachableKeysFit(s: State, env: Env)
    requires Reachable(s, env) && PatternChecked(env)
    ensures KeysFit(s)
  {
    var genesis: State, events: seq<Event> :| Genesis(genesis) && s == Run(genesis, env, events);
    ReachableOk(genesis, env, events);
    RunSince(genesis, env, events);
    RunKeysOk(genesis, env, events);
    KeyParts(s, env);
    if s.lastRound.Some? { LastRoundFits(s, genesis.now); }
    DomainsFit(s, env);
    RoundsFit(s, env);
    VotesAssigned(BallotsOf(s), s.assignments, s.params, env);
    WaitingAssigned(s.assignments, s.unsettled);
  }

  /** The records that the store holds in state s; similar statistics are kept per assigned domain. */
  ghost predicate Stored(s: State, r: Record) {
    match r
    case ParamsRecord => true
    case WebsiteAt(d) => d in s.websites
    case PrimaryAt(d) => d in s.primary
    case AssignmentAt(k) => k in s.assignments
    case SubmissionAt(v) => v in s.submissions
    case LastRound => s.lastRound.Some?
    case RoundMetaAt(n) => n in s.metas
    case CommitAt(v) => v in s.commits
    case SimilarAt(d) => exists k :: k in s.assignments && k.domain == d
    case StreakAt(d) => d in s.streaks
    case PenaltyAt(a) => a in s.penalties
    case LatestBeacon => s.beacons != map[]
    case BeaconAt(n) => n >= 0 && n in s.beacons
    case UnsettledAt(n) => n in s.unsettled
    case SlotAt(id) => id in s.slots
    case LeaseAt(id) => id in s.leases
    case SlotSequence => s.slotSeq > 0
    case LeaseSequence => s.leaseSeq > 0
  }

  lemma KeyFits(s: State, r: Record)
    requires KeysFit(s) && Stored(s, r)
    ensures WellFormed(r)
  {
  }

  /** Every record that a reachable state stores has a well-formed key. */
  lemma StoredWellFormed(s: State, env: Env, r: Record)
    requires Reachable(s, env) && PatternChecked(env) && Stored(s, r)
    ensures WellFormed(r)
  {
    ReachableKeysFit(s, env);
    KeyFits(s, r);
  }

  /** No two records of a reachable state share a key. */
  lemma StoreUnambiguous(s: State, env: Env, a: Record, b: Record)
    requires Reachable(s, env) && PatternChecked(env) && Stored(s, a) && Stored(s, b) && Encode(a) == Encode(b)
    ensures a == b
  {
    StoredWellFormed(s, env, a);
    StoredWellFormed(s, env, b);
    EncodeInjective(a, b);
  }

  /** In a reachable state the scan for an assignment's submissions meets exactly the votes counted for it. */
  lemma ScansExact(s: State, env: Env, k: AssignmentId, v: VoteId)
    requires Reachable(s, env) && PatternChecked(env) && k in s.assignments && v in s.submissions
    ensures VotePrefix(k) <= VoteKey(v) <==> k == AssignmentId(v.round, v.domain)
    ensures RoundKey(k.round) <= AssignmentKey(AssignmentId(v.round, v.domain)) <==> k.round == v.round
  {
    ReachableKeysFit(s, env);
    assert IsRound(v.round) && NoNul(v.domain) by { assert AssignmentId(v.round, v.domain) in s.assignments; }
    VoteScanExact(k, v);
    RoundScanExact(k.round, AssignmentId(v.round, v.domain));
  }
}
