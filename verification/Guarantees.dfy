// The guarantees of the protocol, for every run from genesis.
module Guarantees {
  import opened Base
  import opened Orders
  import opened Sums
  import opened Bank
  import opened Text
  import opened Tally
  import opened PublisherParams
  import opened StoreKeys
  import opened ChainState
  import opened DrandSchedule
  import opened Market
  import opened LeaseSettlement
  import opened Verdicts
  import opened Votes
  import opened Rounds
  import opened Assigning
  import opened Invariant
  import opened Chain
  import opened Evolution
  import F = Finalization
  import S = Settlement
  import P = Payments
  import V = Solvency
  import E = Emission
  import C = CommitHash
  import Registration
  import B = Bonding

  ghost predicate Reachable(s: State, env: Env) {
    exists genesis: State, events: seq<Event> :: Genesis(genesis) && s == Run(genesis, env, events)
  }

  lemma ReachableInv(s: State, env: Env)
    requires Reachable(s, env)
    ensures Inv(s, env)
  {
    var genesis: State, events: seq<Event> :| Genesis(genesis) && s == Run(genesis, env, events);
    ReachableOk(genesis, env, events);
  }

  // Money.

  /** Per denomination the registry account holds exactly the open escrow of all leases and outside deposits. */
  lemma RegistryAccount(s: State, env: Env, d: string)
    requires Reachable(s, env)
    ensures Balance(s.bank, REGISTRY, d) == SumMap(EscrowOf(s.leases, d)) + Balance(s.log.gifts, REGISTRY, d)
    ensures forall id :: id in s.leases ==> LeaseShape(s.leases[id])
  {
    ReachableInv(s, env);
  }

  /** The verifiers account holds exactly the bonds, the stranded remainders and outside deposits. */
  lemma VerifiersAccount(s: State, env: Env)
    requires Reachable(s, env)
    ensures Balance(s.bank, VERIFIERS, s.bondParams.denom)
         == SumMap(s.bonds) + s.log.stranded + Balance(s.log.gifts, VERIFIERS, s.bondParams.denom)
    ensures s.bondParams.minBond <= 1 ==> s.log.stranded == 0
  {
    ReachableInv(s, env);
  }

  /** The emission account holds what was minted less one round's pools per settled round, and outside deposits. */
  lemma EmissionAccount(s: State, env: Env)
    requires Reachable(s, env)
    ensures s.params.Valid()
    ensures Balance(s.bank, TOKENOMICS, REWARD_DENOM)
         == s.funded - |s.log.settlements| * E.PerRound(s.params) + Balance(s.log.gifts, TOKENOMICS, REWARD_DENOM)
  {
    ReachableInv(s, env);
  }

  /** Active leases of one slot never overlap. */
  lemma LeasesDisjoint(s: State, env: Env, i: string, j: string)
    requires Reachable(s, env)
    requires i in s.leases && j in s.leases && i != j && s.leases[i].slotId == s.leases[j].slotId
    requires s.leases[i].status == Active && s.leases[j].status == Active
    ensures s.leases[i].ends <= s.leases[j].starts || s.leases[j].ends <= s.leases[i].starts
  {
    ReachableInv(s, env);
  }

  // Settlement.

  /** No round is paid twice, none is partially settled, and the index lists exactly the rounds left to settle. */
  lemma ExactlyOnce(s: State, env: Env)
    requires Reachable(s, env)
    ensures NoDup(s.log.settlements)
    ensures Uniform(s.assignments)
    ensures forall r :: r in s.unsettled <==> exists k :: k in s.assignments && k.round == r && !s.assignments[k].settled
    ensures forall r :: Decide(s.assignments, r) != Refuse
  {
    ReachableInv(s, env);
    forall r
      ensures r in s.unsettled <==> exists k :: k in s.assignments && k.round == r && !s.assignments[k].settled
      ensures Decide(s.assignments, r) != Refuse
    {
      assert r in s.unsettled <==> OpenRound(s.assignments, r);
      S.NeverRefused(CalendarOf(s), r, s.params.roundInterval);
    }
  }

  /** The upgrade succeeds in every reachable state. */
  lemma UpgradeSucceeds(s: State, env: Env)
    requires Reachable(s, env)
    ensures UpgradeStep(s).Ok?
  {
    ReachableInv(s, env);
    StoredAllStorable(s.assignments, s.params);
  }

  lemma StoredAllStorable(docket: Docket, p: Params)
    requires DutiesOk(docket, p)
    ensures AllStorable(docket)
  {
    assert forall k :: k in docket ==> DutyOk(k, docket[k], p);
  }

  // Rounds take time, so the emission period has room for them.

  ghost predicate Assigned(docket: Docket, r: int) {
    exists k :: k in docket && k.round == r
  }

  /** The settled and the waiting rounds together. */
  lemma AllRounds(c: Calendar, interval: int) returns (rounds: seq<int>)
    requires interval > 0 && CalendarOk(c, interval)
    ensures |rounds| == |c.settlements| + |c.unsettled| && NoDup(rounds)
    ensures forall i :: 0 <= i < |rounds| ==> Assigned(c.docket, rounds[i])
  {
    var waiting := SortedInts(c.unsettled);
    EnumerationLength(waiting, c.unsettled);
    EnumerationElems(waiting, c.unsettled);
    rounds := c.settlements + waiting;
    forall i | 0 <= i < |rounds|
      ensures Assigned(c.docket, rounds[i])
    {
      if i < |c.settlements| {
        assert PaidRound(c.docket, c.settlements[i]);
      } else {
        assert OpenRound(c.docket, waiting[i - |c.settlements|]);
      }
    }
    forall i, j | 0 <= i < |c.settlements| && 0 <= j < |waiting|
      ensures c.settlements[i] != waiting[j]
    {
      NeverPartiallySettled(c, waiting[j], interval);
    }
  }

  /** Settled and waiting rounds are distinct grid points, so k of them span more than k - 1 intervals. */
  lemma RoundsSpan(c: Calendar, interval: int, from: int, to: int)
    requires interval > 0 && CalendarOk(c, interval) && from <= to
    requires forall k :: k in c.docket ==> from < k.round <= to
    ensures (|c.settlements| + |c.unsettled|) * interval < to - from + interval
  {
    var rounds := AllRounds(c, interval);
    forall i | 0 <= i < |rounds|
      ensures from < rounds[i] <= to && OnGrid(rounds[i], interval)
    {
      assert Assigned(c.docket, rounds[i]);
      var k :| k in c.docket && k.round == rounds[i];
    }
    V.RoundsTakeTime(rounds, from, to, interval);
  }

  lemma RoomForAll(c: Calendar, p: Params, from: int, to: int)
    requires p.roundInterval > 0 && CalendarOk(c, p.roundInterval) && from <= to
    requires forall k :: k in c.docket ==> from < k.round <= to
    requires to - from + p.roundInterval <= p.EmissionHours() * 3600 + 1
    ensures |c.settlements| + |c.unsettled| <= E.Room(p)
  {
    RoundsSpan(c, p.roundInterval, from, to);
    E.RoomFits(p, |c.settlements| + |c.unsettled|);
  }

  /** Since time t0: every round assigned so far starts after t0, and at most one interval ahead of the clock. */
  ghost predicate Since(s: State, t0: int) {
    && t0 <= s.now
    && (forall k :: k in s.assignments ==> t0 < k.round)
    && (s.lastRound.Some? ==> s.lastRound.value <= s.now + s.params.roundInterval)
  }

  lemma MessageKeys(s: State, env: Env, e: Event)
    requires IsMessage(e) && MessageStep(s, env, e).Ok?
    ensures MessageStep(s, env, e).value.assignments.Keys == s.assignments.Keys
  {
  }

  lemma MessageSince(s: State, env: Env, e: Event, t0: int)
    requires IsMessage(e) && MessageStep(s, env, e).Ok? && Since(s, t0)
    ensures Since(MessageStep(s, env, e).value, t0)
  {
    MessageKeys(s, env, e);
    MessageSameBlock(s, env, e);
  }

  lemma AssignSince(v: State, env: Env, anchor: string, t0: int)
    requires AssignStep(v, env, anchor).Ok? && Since(v, t0)
    ensures Since(AssignStep(v, env, anchor).value, t0)
  {
    NextRoundStartIsNext(v.now, v.params.roundInterval);
    var u := AssignStep(v, env, anchor).value;
    forall k | k in u.assignments
      ensures t0 < k.round
    {
      AssignAdds(PlanOf(v), SceneOf(v, anchor), v.params, env, v.beacons, k);
    }
    AssignLast(PlanOf(v), SceneOf(v, anchor), v.params, env, v.beacons);
  }

  lemma EndBlockSince(s: State, env: Env, anchor: string, t0: int)
    requires Inv(s, env) && EndBlockStep(s, env, anchor).Ok? && Since(s, t0)
    ensures Since(EndBlockStep(s, env, anchor).value, t0)
  {
    var v := BeforeAssignment(s, env, anchor);
    AssignSince(v, env, anchor, t0);
  }

  lemma StepSince(s: State, env: Env, e: Event, t0: int)
    requires Inv(s, env) && Step(s, env, e).Ok? && Since(s, t0)
    ensures Since(Step(s, env, e).value, t0)
  {
    if e.EndBlock? { EndBlockSince(s, env, e.anchor, t0); }
    else if !e.NextBlock? { MessageSince(s, env, e, t0); }
  }

  lemma {:induction false} RunSince(genesis: State, env: Env, events: seq<Event>)
    requires Genesis(genesis)
    ensures Since(Run(genesis, env, events), genesis.now)
  {
    if events != [] {
      var n := |events| - 1;
      RunSince(genesis, env, events[..n]);
      var t := Run(genesis, env, events[..n]);
      ReachableOk(genesis, env, events[..n]);
      if Step(t, env, events[n]).Ok? { StepSince(t, env, events[n], genesis.now); }
    }
  }

  // The end of a block succeeds.

  lemma SameIndex(docket: Docket, unsettled: set<int>, docket': Docket, unsettled': set<int>)
    requires IndexExact(docket, unsettled) && IndexExact(docket', unsettled')
    requires forall r :: OpenRound(docket, r) <==> OpenRound(docket', r)
    ensures unsettled' == unsettled
  {
    forall r
      ensures r in unsettled <==> r in unsettled'
    {
      assert OpenRound(docket, r) <==> OpenRound(docket', r);
    }
  }

  /** Finalization leaves the schedule, the number of websites and the set of waiting rounds alone. */
  lemma FinalizeSameRooms(s: State)
    requires F.FinalizeAssignments(s).Ok? && IndexExact(s.assignments, s.unsettled)
    requires IndexExact(F.FinalizeAssignments(s).value.assignments, F.FinalizeAssignments(s).value.unsettled)
    ensures var t := F.FinalizeAssignments(s).value;
      && F.Untouched(s, t) && t.websites.Keys == s.websites.Keys && t.unsettled == s.unsettled
  {
    var t := F.FinalizeAssignments(s).value;
    F.FinalizeChanges(s);
    forall r
      ensures OpenRound(s.assignments, r) <==> OpenRound(t.assignments, r)
    {
      SameOpen(s, t, r);
    }
    SameIndex(s.assignments, s.unsettled, t.assignments, t.unsettled);
  }

  lemma LeaseStage(u: State, env: Env)
    requires Inv(u, env)
    ensures SettleLeases(u).Ok? && SettleLeases(u).value.params == u.params && SettleLeases(u).value.now == u.now
    ensures Inv(SettleLeases(u).value, env)
  {
    SettleLeasesKeeps(u, env);
    var b := SettleLeasesExact(u, "", "");
  }

  /** The block after finalization: settle rounds, settle leases, assign. */
  function RestOfBlock(t: State, env: Env, anchor: string): Result<State, Error> {
    var paid :- S.SettleRounds(t);
    var settled :- SettleLeases(paid);
    AssignStep(settled, env, anchor)
  }

  /** The emission account pays every due round, and the next round can be assigned. */
  ghost predicate RestReady(t: State, env: Env, anchor: string) {
    && t.params.Valid() && S.AllPayable(t, S.DueRounds(t))
    && AssignReady(t.lastRound, SceneOf(t, anchor), t.params, env, t.beacons)
  }

  lemma AfterSettlement(t: State, env: Env, anchor: string)
    requires Inv(t, env) && S.SettleRounds(t).Ok?
    ensures SettleLeases(S.SettleRounds(t).value).Ok?
    ensures var v := SettleLeases(S.SettleRounds(t).value).value;
      && Inv(v, env) && SceneOf(v, anchor) == SceneOf(t, anchor)
      && v.lastRound == t.lastRound && v.params == t.params && v.beacons == t.beacons
  {
    S.SettleRoundsKeeps(t, env);
    S.SettleRoundsExact(t, env);
    LeaseStage(S.SettleRounds(t).value, env);
  }

  lemma RestIff(t: State, env: Env, anchor: string)
    requires Inv(t, env)
    ensures RestOfBlock(t, env, anchor).Ok? <==> RestReady(t, env, anchor)
  {
    S.SettleRoundsIff(t, env);
    if S.SettleRounds(t).Ok? {
      AfterSettlement(t, env, anchor);
      AssignStepIff(SettleLeases(S.SettleRounds(t).value).value, env, anchor);
    }
  }

  /** Every cooldown fits, every due round is payable after finalization, and the next round can be assigned. */
  ghost predicate BlockPasses(s: State, env: Env, anchor: string) {
    F.CooldownsFit(s) && (F.FinalizeAssignments(s).Ok? ==> RestReady(F.FinalizeAssignments(s).value, env, anchor))
  }

  lemma BlockParts(s: State, env: Env, anchor: string)
    ensures EndBlockStep(s, env, anchor).Ok? <==>
      F.FinalizeAssignments(s).Ok? && RestOfBlock(F.FinalizeAssignments(s).value, env, anchor).Ok?
  {
  }

  lemma BlockIff(s: State, env: Env, anchor: string)
    requires Inv(s, env)
    ensures EndBlockStep(s, env, anchor).Ok? <==> BlockPasses(s, env, anchor)
  {
    BlockParts(s, env, anchor);
    F.FinalizeIff(s, env);
    if F.FinalizeAssignments(s).Ok? { FinalizedRestIff(s, env, anchor); }
  }

  lemma FinalizedRestIff(s: State, env: Env, anchor: string)
    requires Inv(s, env) && F.FinalizeAssignments(s).Ok?
    ensures var t := F.FinalizeAssignments(s).value; RestOfBlock(t, env, anchor).Ok? <==> RestReady(t, env, anchor)
  {
    F.FinalizeKeeps(s, env);
    RestIff(F.FinalizeAssignments(s).value, env, anchor);
  }

  /**
   * In every reachable state the end of a block succeeds if and only if every cooldown that it starts fits an int64,
   * the emission account covers the rounds that are then due with an entry for each successful verifier, and the
   * schedule and the clock admit the next round. No other error can occur: escrow, index and flags never fail.
   */
  lemma EndBlockIff(s: State, env: Env, anchor: string)
    requires Reachable(s, env)
    ensures EndBlockStep(s, env, anchor).Ok? <==> BlockPasses(s, env, anchor)
  {
    ReachableInv(s, env);
    BlockIff(s, env, anchor);
  }

  /** Everything the rest of the block needs besides the invariant. */
  ghost predicate BlockReady(s: State) {
    && s.params.Valid() && S.Sustainable(s.params, |s.websites|)
    && |s.log.settlements| + |s.unsettled| <= E.Room(s.params)
    && ClockReady(s)
  }

  /** drand has started, the clock runs, and the deadlines of the next round fit an int64. */
  predicate ClockReady(s: State) {
    && (s.params.drandEnabled ==> s.params.DrandGenesis() + s.params.DrandOffset() <= s.now)
    && 0 < s.now && s.now + 2 * s.params.roundInterval + s.params.submissionWindow <= MAX_INT64
  }

  lemma StillReady(s: State, t: State)
    requires BlockReady(s) && F.Untouched(s, t) && t.websites.Keys == s.websites.Keys && t.unsettled == s.unsettled
    ensures BlockReady(t)
  {
    assert |t.websites| == |t.websites.Keys| && |s.websites| == |s.websites.Keys|;
  }

  lemma BlockSucceeds(s: State, env: Env, anchor: string)
    requires Inv(s, env) && F.CooldownsFit(s) && BlockReady(s)
    ensures EndBlockStep(s, env, anchor).Ok?
  {
    BlockIff(s, env, anchor);
    F.FinalizeIff(s, env);
    var t := F.FinalizeAssignments(s).value;
    F.FinalizeKeeps(s, env);
    FinalizeSameRooms(s);
    StillReady(s, t);
    S.SettleRoundsSucceeds(t, env);
    AssignStage(t, env, anchor);
  }

  /** The clock has not run past the emission period that began with the chain. */
  predicate WithinEmission(s: State, t0: int) {
    s.now - t0 + 2 * s.params.roundInterval <= s.params.EmissionHours() * 3600 + 1
  }

  lemma RoomSince(s: State, env: Env, t0: int)
    requires Inv(s, env) && Since(s, t0) && WithinEmission(s, t0)
    ensures |s.log.settlements| + |s.unsettled| <= E.Room(s.params)
  {
    RoomForAll(CalendarOf(s), s.params, t0, s.now + s.params.roundInterval);
  }

  /**
   * Over every run the end of a block succeeds until the emission period that began with the chain is over,
   * provided the parameters afford the schedule and leave a base unit per panel member, drand has started,
   * and cooldowns and deadlines fit an int64.
   */
  lemma EndBlockSucceeds(genesis: State, env: Env, events: seq<Event>, anchor: string)
    requires Genesis(genesis)
    requires var s := Run(genesis, env, events);
      && F.CooldownsFit(s)
      && s.params.Valid() && S.Sustainable(s.params, |s.websites|)
      && WithinEmission(s, genesis.now) && ClockReady(s)
    ensures EndBlockStep(Run(genesis, env, events), env, anchor).Ok?
  {
    var s := Run(genesis, env, events);
    ReachableOk(genesis, env, events);
    RunSince(genesis, env, events);
    RoomSince(s, env, genesis.now);
    BlockSucceeds(s, env, anchor);
  }

  lemma SameOpen(s: State, t: State, r: int)
    requires F.Finalizing(s, t)
    ensures OpenRound(s.assignments, r) <==> OpenRound(t.assignments, r)
  {
    if OpenRound(s.assignments, r) {
      var k :| k in s.assignments && k.round == r && !s.assignments[k].settled;
      assert F.DocketStep(s, t, k);
      assert k in t.assignments && k.round == r && !t.assignments[k].settled;
    }
    if OpenRound(t.assignments, r) {
      var k :| k in t.assignments && k.round == r && !t.assignments[k].settled;
      assert F.DocketStep(s, t, k);
      assert k in s.assignments && k.round == r && !s.assignments[k].settled;
    }
  }

  lemma NamesAreOk(s: State, env: Env, anchor: string)
    requires Inv(s, env)
    ensures NamesOk(SceneOf(s, anchor))
  {
    forall d | d in s.websites
      ensures d != "" && SiteOk(s.websites[d], Streak(s.streaks, d), s.params)
    {
    }
  }

  /** In every reachable state assigning succeeds if and only if the block is ready for it. */
  lemma AssignSucceedsIff(s: State, env: Env, anchor: string)
    requires Reachable(s, env)
    ensures s.params.Valid()
    ensures AssignStep(s, env, anchor).Ok? <==> AssignReady(s.lastRound, SceneOf(s, anchor), s.params, env, s.beacons)
  {
    ReachableInv(s, env);
    AssignStepIff(s, env, anchor);
  }

  lemma AssignStepIff(s: State, env: Env, anchor: string)
    requires Inv(s, env)
    ensures AssignStep(s, env, anchor).Ok? <==> AssignReady(s.lastRound, SceneOf(s, anchor), s.params, env, s.beacons)
  {
    NamesAreOk(s, env, anchor);
    AssignIff(PlanOf(s), SceneOf(s, anchor), s.params, env, s.beacons);
  }

  lemma AssignStage(s: State, env: Env, anchor: string)
    requires Inv(s, env) && ClockReady(s)
    ensures AssignReady(s.lastRound, SceneOf(s, anchor), s.params, env, s.beacons)
  {
    NextRoundStartIsNext(s.now, s.params.roundInterval);
  }

  // Ownership.

  /**
   * A re-registration of d for owner that is still open, and for which at least half of the panel has revealed and more
   * than half of the reveals are passes.
   */
  ghost predicate WinningBid(s: State, d: string, owner: string, k: AssignmentId) {
    && k in s.assignments && k.domain == d && !s.assignments[k].finalized
    && s.assignments[k].reregistration && s.assignments[k].owner == owner
    && 0 < |s.assignments[k].verifiers| <= 2 * |Voters(s.submissions, k)|
    && |Voters(s.submissions, k)| < 2 * |PassingVoters(s.submissions, k)|
  }

  lemma FinalizeOwners(s: State, env: Env, d: string)
    requires Inv(s, env) && F.FinalizeAssignments(s).Ok? && d in s.websites
    ensures var t := F.FinalizeAssignments(s).value;
      && d in t.websites
      && (t.websites[d].owner == s.websites[d].owner || exists k :: WinningBid(s, d, t.websites[d].owner, k))
  {
    var t := F.FinalizeAssignments(s).value;
    F.FinalizeChanges(s);
    F.FinalizeKeeps(s, env);
    if t.websites[d].owner != s.websites[d].owner {
      var k :| F.WonBy(s, t, d, k);
      assert F.DocketStep(s, t, k);
      assert t.log.tallies[k] == TallyOf(t.submissions, k, t.assignments[k]);
      assert TallyOf(t.submissions, k, t.assignments[k]) == TallyOf(s.submissions, k, s.assignments[k]);
      TallyMeaning(s.submissions, k, s.assignments[k]);
      assert WinningBid(s, d, t.websites[d].owner, k);
    }
  }

  /** Only the end of a block changes an owner. */
  lemma MessagesKeepOwners(s: State, env: Env, e: Event, d: string)
    requires IsMessage(e) && MessageStep(s, env, e).Ok? && d in s.websites
    ensures d in MessageStep(s, env, e).value.websites && MessageStep(s, env, e).value.websites[d].owner == s.websites[d].owner
  {
    if e.Register? { Registration.RegisterKeepsRegistered(SitesOf(s), env, s.height, e.registration, d); }
  }

  /**
   * Ownership safety: an owner changes only at the end of a block that finalizes a re-registration of that domain, for
   * the candidate it was assigned for: at least half of its panel revealed, and more than half of the reveals passed.
   */
  lemma OwnershipSafety(s: State, env: Env, e: Event, d: string)
    requires Reachable(s, env) && d in s.websites
    ensures d in Next(s, env, e).websites
    ensures Next(s, env, e).websites[d].owner != s.websites[d].owner ==>
      e.EndBlock? && exists k :: WinningBid(s, d, Next(s, env, e).websites[d].owner, k)
  {
    ReachableInv(s, env);
    if Step(s, env, e).Ok? { StepOwners(s, env, e, d); }
  }

  lemma StepOwners(s: State, env: Env, e: Event, d: string)
    requires Inv(s, env) && Step(s, env, e).Ok? && d in s.websites
    ensures var t := Step(s, env, e).value;
      && d in t.websites
      && (t.websites[d].owner == s.websites[d].owner || (e.EndBlock? && exists k :: WinningBid(s, d, t.websites[d].owner, k)))
  {
    if e.EndBlock? { EndBlockOwners(s, env, e.anchor, d); }
    else if !e.NextBlock? { MessagesKeepOwners(s, env, e, d); }
  }

  lemma EndBlockWebsites(s: State, env: Env, anchor: string)
    requires Inv(s, env) && EndBlockStep(s, env, anchor).Ok?
    ensures F.FinalizeAssignments(s).Ok?
    ensures EndBlockStep(s, env, anchor).value.websites == F.FinalizeAssignments(s).value.websites
  {
    var t := F.FinalizeAssignments(s).value;
    F.FinalizeKeeps(s, env);
    S.SettleRoundsExact(t, env);
    S.SettleRoundsKeeps(t, env);
    var b := SettleLeasesExact(S.SettleRounds(t).value, "", "");
  }

  lemma EndBlockOwners(s: State, env: Env, anchor: string, d: string)
    requires Inv(s, env) && EndBlockStep(s, env, anchor).Ok? && d in s.websites
    ensures var u := EndBlockStep(s, env, anchor).value;
      && d in u.websites
      && (u.websites[d].owner == s.websites[d].owner || exists k :: WinningBid(s, d, u.websites[d].owner, k))
  {
    EndBlockWebsites(s, env, anchor);
    FinalizeOwners(s, env, d);
  }

  /** Every slot belongs to the owner of its website. */
  lemma SlotsFollowOwner(s: State, env: Env, id: string)
    requires Reachable(s, env) && id in s.slots
    ensures s.slots[id].domain in s.websites && s.slots[id].publisher == s.websites[s.slots[id].domain].owner
  {
    ReachableInv(s, env);
  }

  /** A verified publisher has no failures on record, and a revoked one exists only under a threshold of 1. */
  lemma RevocationNeedsThresholdOne(s: State, env: Env, d: string)
    requires Reachable(s, env) && d in s.websites
    ensures s.websites[d].status == Verified ==> d !in s.streaks
    ensures s.websites[d].status == Revoked ==> s.params.RevokeThreshold() == 1
  {
    ReachableInv(s, env);
    assert SiteOk(s.websites[d], Streak(s.streaks, d), s.params);
  }

  // Votes.

  /** Every counted vote was committed and revealed by an assigned verifier, each in its window, commit first. */
  lemma VotesAreHonest(s: State, env: Env, v: VoteId)
    requires Reachable(s, env) && v in s.submissions
    ensures v in s.log.commitLog && v in s.log.revealLog && AssignmentId(v.round, v.domain) in s.assignments
    ensures var a, c, r := s.assignments[AssignmentId(v.round, v.domain)], s.log.commitLog[v], s.log.revealLog[v];
      && v.verifier in a.verifiers
      && a.start <= c.at <= a.start + s.params.commitWindow < r.at <= a.deadline
      && r.message.Opens(env.sha, a.owner, c.hash)
      && s.submissions[v] == SubmissionOf(r.message, r.at)
  {
    ReachableInv(s, env);
    assert LogsMatch(BallotsOf(s));
    assert CommitOk(s.assignments, s.params, v, s.log.commitLog[v]);
    assert RevealOk(s.assignments, s.params, env, v, s.log.commitLog[v], s.log.revealLog[v], s.submissions[v]);
  }

  /**
   * Whoever an assignment pays was on its panel, committed and revealed in time, and revealed a pass; the payment is
   * positive, and everybody else who did so is paid too.
   */
  lemma RewardsAreEarned(s: State, env: Env, k: AssignmentId, total: nat, v: string)
    requires Reachable(s, env) && k in s.assignments && total > 0
    requires P.VerifierPayments(RecordsOf(s), s.params, k, total).Ok?
    ensures var ps, vote := P.VerifierPayments(RecordsOf(s), s.params, k, total).value, VoteId(k.round, k.domain, v);
      && ((exists i :: 0 <= i < |ps| && ps[i].to == v) <==> P.Passed(s.submissions, k, v))
      && (P.Passed(s.submissions, k, v) ==>
            && v in s.assignments[k].verifiers && vote in s.log.commitLog && vote in s.log.revealLog
            && s.log.commitLog[vote].at <= s.assignments[k].start + s.params.commitWindow
            && s.assignments[k].start + s.params.commitWindow < s.log.revealLog[vote].at <= s.assignments[k].deadline)
  {
    P.PassersPaid(RecordsOf(s), s.params, k, total, v);
    if P.Passed(s.submissions, k, v) { VotesAreHonest(s, env, VoteId(k.round, k.domain, v)); }
  }

  /** Vote freezing: any later recount of a finalized assignment finds the tally that decided it. */
  lemma RecountAgrees(s: State, env: Env, events: seq<Event>, k: AssignmentId)
    requires Reachable(s, env) && k in s.assignments && s.assignments[k].finalized
    ensures var t := Run(s, env, events);
      && k in t.assignments
      && TallyOf(t.submissions, k, t.assignments[k]) == TallyOf(s.submissions, k, s.assignments[k])
      && t.assignments[k].verified == s.assignments[k].verified
  {
    ReachableInv(s, env);
    RunEvolves(s, env, events, 0);
    assert events[..0] == [];
    var t := Run(s, env, events);
    assert k in s.log.tallies;
    assert AssignmentEvolves(s.assignments[k], t.assignments[k]);
  }

  /** A closed lease never changes again, whatever happens. */
  lemma ClosedLeasesStayClosed(s: State, env: Env, events: seq<Event>, id: string)
    requires Reachable(s, env) && id in s.leases && s.leases[id].status != Active
    ensures id in Run(s, env, events).leases && Run(s, env, events).leases[id] == s.leases[id]
  {
    ReachableInv(s, env);
    RunEvolves(s, env, events, 0);
    assert events[..0] == [];
    assert LeaseEvolves(s.leases[id], Run(s, env, events).leases[id]);
  }

  // Beacons.

  /** Still the same block: same clock, same pending round, same schedule, no beacon lost. */
  ghost predicate SameBlock(s: State, t: State) {
    && t.now == s.now && t.lastRound == s.lastRound && SameButMinimum(s.params, t.params)
    && MapGrows(s.beacons, t.beacons)
  }

  lemma OnlyBeacons(s: State, t: State)
    requires t == s.(beacons := t.beacons) && MapGrows(s.beacons, t.beacons)
    ensures SameBlock(s, t)
  {
  }

  lemma BeaconSameBlock(s: State, env: Env, m: BeaconMsg)
    requires BeaconStep(s, env, m).Ok?
    ensures SameBlock(s, BeaconStep(s, env, m).value)
  {
    BeaconEvolves(s, env, m);
    OnlyBeacons(s, BeaconStep(s, env, m).value);
  }

  lemma SlotSameBlock(s: State, m: SlotMsg)
    requires CreateSlot(s, m).Ok?
    ensures SameBlock(s, CreateSlot(s, m).value)
  {
  }

  lemma StatusSameBlock(s: State, m: StatusMsg)
    requires UpdateSlotStatus(s, m).Ok?
    ensures SameBlock(s, UpdateSlotStatus(s, m).value)
  {
  }

  lemma LeaseSameBlock(s: State, env: Env, m: LeaseMsg)
    requires LeaseSlot(s, env, m).Ok?
    ensures SameBlock(s, LeaseSlot(s, env, m).value)
  {
  }

  lemma VoteSameBlock(s: State, b: Ballots)
    ensures SameBlock(s, WithBallots(s, b))
  {
  }

  lemma BondSameBlock(s: State, e: B.Escrow)
    ensures SameBlock(s, WithBonds(s, e))
  {
  }

  lemma UpgradeSameBlock(s: State)
    requires UpgradeStep(s).Ok?
    ensures SameBlock(s, UpgradeStep(s).value)
  {
  }

  lemma RegisterSameBlock(s: State, env: Env, m: Registration.RegisterMsg)
    requires RegisterStep(s, env, m).Ok?
    ensures SameBlock(s, RegisterStep(s, env, m).value)
  {
  }

  lemma TransferSameBlock(s: State, from: string, to: Account, denom: string, amount: nat)
    requires TransferStep(s, from, to, denom, amount).Ok?
    ensures SameBlock(s, TransferStep(s, from, to, denom, amount).value)
  {
  }

  lemma MessageSameBlock(s: State, env: Env, e: Event)
    requires IsMessage(e) && MessageStep(s, env, e).Ok?
    ensures SameBlock(s, MessageStep(s, env, e).value)
  {
    match e
    case Register(m) => RegisterSameBlock(s, env, m);
    case Commit(m) => VoteSameBlock(s, SubmitCommit(BallotsOf(s), s.assignments, s.params, s.now, m).value);
    case Reveal(m) => VoteSameBlock(s, RevealVote(BallotsOf(s), s.assignments, s.params, env, s.now, m).value);
    case NewSlot(m) => SlotSameBlock(s, m);
    case SlotStatus(m) => StatusSameBlock(s, m);
    case NewLease(m) => LeaseSameBlock(s, env, m);
    case SendBeacon(m) => BeaconSameBlock(s, env, m);
    case Bond(m) => BondSameBlock(s, B.BondCoins(BondsOf(s), s.bondParams, m).value);
    case Unbond(m) => BondSameBlock(s, B.UnbondCoins(BondsOf(s), s.bondParams, m).value);
    case Transfer(from, to, denom, amount) => TransferSameBlock(s, from, to, denom, amount);
    case Upgrade => UpgradeSameBlock(s);
  }

  lemma NextSameBlock(s: State, env: Env, e: Event)
    requires IsMessage(e)
    ensures SameBlock(s, Next(s, env, e))
  {
    if Step(s, env, e).Ok? { MessageSameBlock(s, env, e); }
  }

  lemma {:induction false} MessagesSameBlock(s: State, env: Env, events: seq<Event>)
    requires forall i :: 0 <= i < |events| ==> IsMessage(events[i])
    ensures SameBlock(s, Run(s, env, events))
  {
    if events != [] {
      var n := |events| - 1;
      MessagesSameBlock(s, env, events[..n]);
      NextSameBlock(Run(s, env, events[..n]), env, events[n]);
      SameBlockTrans(s, Run(s, env, events[..n]), Run(s, env, events));
    }
  }

  /** The state in which the block assigns its round. */
  lemma BeforeAssignment(t: State, env: Env, anchor: string) returns (v: State)
    requires Inv(t, env) && EndBlockStep(t, env, anchor).Ok?
    ensures EndBlockStep(t, env, anchor) == AssignStep(v, env, anchor)
    ensures v.now == t.now && v.lastRound == t.lastRound && v.params == t.params && v.beacons == t.beacons && v.metas == t.metas
    ensures v.assignments.Keys == t.assignments.Keys
  {
    var a := F.FinalizeAssignments(t).value;
    F.FinalizeChanges(t);
    F.FinalizeKeeps(t, env);
    S.SettleRoundsExact(a, env);
    S.SettleRoundsKeeps(a, env);
    var b := SettleLeasesExact(S.SettleRounds(a).value, "", "");
    v := WithBook(S.SettleRounds(a).value, b);
  }

  lemma AssignUses(v: State, env: Env, anchor: string, n: nat)
    requires v.params.Valid() && v.params.drandEnabled && AssignStep(v, env, anchor).Ok?
    requires Opening(v.params, v.now, v.lastRound)
    requires RequiredRound(v.params, NextRoundStart(v.now, v.params.roundInterval)) == Some(n) && n in v.beacons
    ensures var r, u := NextRoundStart(v.now, v.params.roundInterval), AssignStep(v, env, anchor).value;
      && u.lastRound == Some(r) && r in u.metas
      && (r !in v.metas ==> u.metas[r].drandRound == n && u.metas[r].randomness == v.beacons[n].randomness)
  {
  }

  lemma NoMetaAhead(s: State, env: Env, r: int)
    requires Inv(s, env) && Later(s.lastRound, r)
    ensures r !in s.metas
  {
    assert MetasOk(s.metas, s.lastRound, s.beacons, s.params);
  }

  /** A block whose pending round r has its beacon n on record assigns r with that beacon. */
  lemma BlockUses(t: State, env: Env, anchor: string, r: int, n: nat)
    requires Inv(t, env) && EndBlockStep(t, env, anchor).Ok? && t.params.drandEnabled
    requires r == NextRoundStart(t.now, t.params.roundInterval) && Later(t.lastRound, r)
    requires RequiredRound(t.params, r) == Some(n) && n in t.beacons
    ensures var u := EndBlockStep(t, env, anchor).value;
      && u.lastRound == Some(r) && r in u.metas
      && u.metas[r].drandRound == n && u.metas[r].randomness == t.beacons[n].randomness
  {
    var v := BeforeAssignment(t, env, anchor);
    NoMetaAhead(t, env, r);
    AssignUses(v, env, anchor, n);
  }

  /** What an accepted beacon says about its block. */
  lemma AcceptedBeacon(s: State, env: Env, m: BeaconMsg)
    requires BeaconStep(s, env, m).Ok?
    ensures var r := NextRoundStart(s.now, s.params.roundInterval);
      && s.params.drandEnabled && RequiredRound(s.params, r) == Some(m.round) && Later(s.lastRound, r)
    ensures var b := BeaconStep(s, env, m).value;
      && m.round in b.beacons && b.beacons[m.round].randomness == Lower(Trim(m.randomness))
  {
  }

  lemma ReachesBeyond(s: State, b: State, env: Env, m: BeaconMsg, events: seq<Event>)
    requires Reachable(s, env) && BeaconStep(s, env, m) == Ok(b)
    ensures Inv(s, env) && Inv(Run(b, env, events), env)
  {
    ReachableInv(s, env);
    BeaconKeeps(s, env, m);
    RunKeeps(b, env, events);
  }

  lemma SameRoundPending(s: State, t: State, r: int)
    requires s.params.roundInterval > 0 && SameBlock(s, t)
    ensures NextRoundStart(t.now, t.params.roundInterval) == NextRoundStart(s.now, s.params.roundInterval)
    ensures RequiredRound(t.params, r) == RequiredRound(s.params, r) && t.params.drandEnabled == s.params.drandEnabled
    ensures Later(t.lastRound, r) == Later(s.lastRound, r)
  {
    MinimumKeepsSchedule(s.params, t.params, r);
  }

  lemma SameBlockTrans(s: State, t: State, u: State)
    requires SameBlock(s, t) && SameBlock(t, u)
    ensures SameBlock(s, u)
  {
  }

  lemma BlockGoesOn(s: State, b: State, env: Env, m: BeaconMsg, events: seq<Event>)
    requires BeaconStep(s, env, m) == Ok(b) && forall i :: 0 <= i < |events| ==> IsMessage(events[i])
    ensures SameBlock(s, Run(b, env, events)) && MapGrows(b.beacons, Run(b, env, events).beacons)
  {
    BeaconSameBlock(s, env, m);
    MessagesSameBlock(b, env, events);
    SameBlockTrans(s, b, Run(b, env, events));
  }

  /** After any messages of the block the accepted beacon is still on record and its round still pending. */
  lemma BeaconOnRecord(s: State, b: State, env: Env, m: BeaconMsg, events: seq<Event>, r: int, t: State)
    requires BeaconStep(s, env, m) == Ok(b) && t == Run(b, env, events)
    requires forall i :: 0 <= i < |events| ==> IsMessage(events[i])
    requires s.params.roundInterval > 0 && r == NextRoundStart(s.now, s.params.roundInterval)
    ensures Later(s.lastRound, r) && t.params.roundInterval > 0 && t.params.drandEnabled
    ensures r == NextRoundStart(t.now, t.params.roundInterval) && Later(t.lastRound, r)
    ensures RequiredRound(t.params, r) == Some(m.round)
    ensures m.round in t.beacons && t.beacons[m.round].randomness == Lower(Trim(m.randomness))
  {
    AcceptedBeacon(s, env, m);
    BlockGoesOn(s, b, env, m, events);
    SameRoundPending(s, t, r);
  }

  /**
   * A beacon accepted in a block is exactly the one the same block's assignment consumes, whatever other
   * messages the block carries: the pending round is assigned, once, with that beacon on record.
   */
  lemma BeaconDecidesRound(s: State, b: State, env: Env, m: BeaconMsg, events: seq<Event>, anchor: string)
    requires Reachable(s, env) && BeaconStep(s, env, m) == Ok(b)
    requires forall i :: 0 <= i < |events| ==> IsMessage(events[i])
    requires EndBlockStep(Run(b, env, events), env, anchor).Ok?
    ensures s.params.roundInterval > 0
    ensures var r, u := NextRoundStart(s.now, s.params.roundInterval), EndBlockStep(Run(b, env, events), env, anchor).value;
      && r !in s.metas && r in u.metas && u.lastRound == Some(r)
      && u.metas[r].drandRound == m.round && u.metas[r].randomness == Lower(Trim(m.randomness))
  {
    var t := Run(b, env, events);
    ReachesBeyond(s, b, env, m, events);
    var r := NextRoundStart(s.now, s.params.roundInterval);
    BeaconOnRecord(s, b, env, m, events, r, t);
    NoMetaAhead(s, env, r);
    BlockUses(t, env, anchor, r, m.round);
  }
}
