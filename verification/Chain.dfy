// The chain as a state machine: messages, blocks, and the end-of-block pass.
module Chain {
  import opened Base
  import opened Bank
  import opened PublisherParams
  import opened StoreKeys
  import opened ChainState
  import opened Market
  import opened LeaseSettlement
  import opened Verdicts
  import opened Tally
  import opened Votes
  import opened Rounds
  import opened Assigning
  import DrandSchedule
  import opened Solvency
  import opened Invariant
  import opened Finalization
  import P = Payments
  import B = Bonding
  import G = Registration
  import S = Settlement
  import C = CommitHash
  import E = Emission

  datatype Event =
    | Register(registration: G.RegisterMsg)
    | Commit(commit: CommitMsg)
    | Reveal(opening: C.Reveal)
    | NewSlot(slot: SlotMsg)
    | SlotStatus(update: StatusMsg)
    | NewLease(lease: LeaseMsg)
    | SendBeacon(beacon: BeaconMsg)
    | Bond(bond: B.BondMsg)
    | Unbond(unbond: B.BondMsg)
    | Transfer(from: string, to: Account, denom: string, amount: nat)
    | Upgrade
    | EndBlock(anchor: string)
    | NextBlock(time: int, height: int)

  // Steps.

  function RegisterStep(s: State, env: Env, m: G.RegisterMsg): Result<State, Error> {
    match G.RegisterPublisher(SitesOf(s), env, s.height, m)
    case Err(e) => Err(e)
    case Ok(r) => Ok(s.(websites := r.websites, primary := r.primary))
  }

  function BallotStep(s: State, r: Result<Ballots, Error>): Result<State, Error> {
    match r
    case Err(e) => Err(e)
    case Ok(b) => Ok(WithBallots(s, b))
  }

  function BondStep(s: State, r: Result<B.Escrow, Error>): Result<State, Error> {
    match r
    case Err(e) => Err(e)
    case Ok(b) => Ok(WithBonds(s, b))
  }

  function BeaconStep(s: State, env: Env, m: BeaconMsg): Result<State, Error> {
    if !s.params.Valid() then Err(Invalid)
    else
      match SubmitBeacon(s.beacons, s.params, env, s.now, s.lastRound, m)
      case Err(e) => Err(e)
      case Ok(b) => Ok(s.(beacons := b))
  }

  /** A bank transfer by a user; what reaches a module account from outside the protocol is recorded as a gift. */
  function TransferStep(s: State, from: string, to: Account, denom: string, amount: nat): Result<State, Error> {
    match Send(s.bank, User(from), to, denom, amount)
    case None => Err(InsufficientFunds)
    case Some(bank) =>
      Ok(s.(bank := bank,
            log := if to.Module? then s.log.(gifts := Credit(s.log.gifts, to, denom, amount)) else s.log))
  }

  /** migrate2To3. */
  function UpgradeStep(s: State): Result<State, Error> {
    var p := s.params.(publisherMinRewardBps := DEFAULT_PARAMS.publisherMinRewardBps);
    if !p.Valid() || !AllStorable(s.assignments) then Err(Invalid)
    else Ok(WithCalendar(s.(params := p), Migrate(CalendarOf(s))))
  }

  /** Block time never decreases. */
  function NextBlockStep(s: State, time: int, height: int): Result<State, Error> {
    if time < s.now || time > MAX_TIME || height <= s.height then Err(Invalid) else Ok(s.(now := time, height := height))
  }

  function AssignStep(s: State, env: Env, anchor: string): Result<State, Error> {
    if !s.params.Valid() then Err(Invalid)
    else
      match AssignNewRound(PlanOf(s), SceneOf(s, anchor), s.params, env, s.beacons)
      case Err(e) => Err(e)
      case Ok(plan) => Ok(WithCalendar(s, plan.calendar).(metas := plan.metas))
  }

  /** Finalize, settle rounds, settle leases, assign, in that order. */
  function EndBlockStep(s: State, env: Env, anchor: string): Result<State, Error> {
    var finalized :- FinalizeAssignments(s);
    var paid :- S.SettleRounds(finalized);
    var settled :- SettleLeases(paid);
    AssignStep(settled, env, anchor)
  }

  predicate IsMessage(e: Event) {
    !e.EndBlock? && !e.NextBlock?
  }

  function MessageStep(s: State, env: Env, e: Event): Result<State, Error>
    requires IsMessage(e)
  {
    match e
    case Register(m) => RegisterStep(s, env, m)
    case Commit(m) => BallotStep(s, SubmitCommit(BallotsOf(s), s.assignments, s.params, s.now, m))
    case Reveal(m) => BallotStep(s, RevealVote(BallotsOf(s), s.assignments, s.params, env, s.now, m))
    case NewSlot(m) => CreateSlot(s, m)
    case SlotStatus(m) => UpdateSlotStatus(s, m)
    case NewLease(m) => LeaseSlot(s, env, m)
    case SendBeacon(m) => BeaconStep(s, env, m)
    case Bond(m) => BondStep(s, B.BondCoins(BondsOf(s), s.bondParams, m))
    case Unbond(m) => BondStep(s, B.UnbondCoins(BondsOf(s), s.bondParams, m))
    case Transfer(from, to, denom, amount) => TransferStep(s, from, to, denom, amount)
    case Upgrade => UpgradeStep(s)
  }

  function Step(s: State, env: Env, e: Event): Result<State, Error> {
    if e.EndBlock? then EndBlockStep(s, env, e.anchor)
    else if e.NextBlock? then NextBlockStep(s, e.time, e.height)
    else MessageStep(s, env, e)
  }

  /** A failed step rolls back. */
  function Next(s: State, env: Env, e: Event): State {
    match Step(s, env, e)
    case Err(_) => s
    case Ok(t) => t
  }

  function Run(s: State, env: Env, events: seq<Event>): State {
    if events == [] then s
    else
      var n := |events| - 1;
      Next(Run(s, env, events[..n]), env, events[n])
  }

  /** An empty chain: no websites, rounds, votes, leases or bonds; what module accounts hold came from outside. */
  ghost predicate Genesis(s: State) {
    && s.params.Valid() && s.params.InRange() && 0 <= s.now <= MAX_TIME
    && s.websites == map[] && s.primary == map[] && s.streaks == map[] && s.slots == map[] && s.leases == map[]
    && s.assignments == map[] && s.unsettled == {} && s.lastRound == None && s.metas == map[] && s.beacons == map[]
    && s.commits == map[] && s.submissions == map[] && s.bonds == map[] && s.funded == 0
    && s.log.stranded == 0 && s.log.commitLog == map[] && s.log.revealLog == map[] && s.log.settlements == []
    && s.log.paid == 0 && s.log.burned == 0
    && (forall a: Account, d :: a.Module? ==> Balance(s.log.gifts, a, d) == Balance(s.bank, a, d))
  }

  // Every step keeps the invariant.

  lemma GenesisOk(s: State, env: Env)
    requires Genesis(s)
    ensures Inv(s, env)
  {
    assert forall d :: EscrowOf(s.leases, d) == map[];
  }

  lemma RegisterSlots(slots: map<string, Slot>, slotSeq: nat, r: G.Sites, env: Env, height: int, m: G.RegisterMsg)
    requires SlotsOk(slots, r.websites, slotSeq) && G.RegisterPublisher(r, env, height, m).Ok?
    ensures SlotsOk(slots, G.RegisterPublisher(r, env, height, m).value.websites, slotSeq)
    ensures r.websites.Keys <= G.RegisterPublisher(r, env, height, m).value.websites.Keys
  {
  }

  lemma RegisterSites(r: G.Sites, streaks: map<string, int>, p: Params, env: Env, height: int, m: G.RegisterMsg)
    requires SitesOk(r.websites, streaks, p) && G.RegisterPublisher(r, env, height, m).Ok?
    ensures SitesOk(G.RegisterPublisher(r, env, height, m).value.websites, streaks, p)
  {
    var d := C.Normalize(m.domain);
    assert d in r.websites ==> SiteOk(r.websites[d], Streak(streaks, d), p);
  }

  lemma RegisterKeeps(s: State, env: Env, m: G.RegisterMsg)
    requires Inv(s, env) && RegisterStep(s, env, m).Ok?
    ensures Inv(RegisterStep(s, env, m).value, env)
  {
    RegisterSlots(s.slots, s.slotSeq, SitesOf(s), env, s.height, m);
    RegisterSites(SitesOf(s), s.streaks, s.params, env, s.height, m);
    G.RegisterKeepsIndex(SitesOf(s), env, s.height, m);
  }

  lemma BallotsMoved(s: State, env: Env, b: Ballots)
    requires Inv(s, env) && VotesOk(b, s.assignments, s.params, env) && TallyOk(s.assignments, b.submissions, s.log.tallies)
    ensures Inv(WithBallots(s, b), env)
  {
  }

  lemma CommitKeeps(s: State, env: Env, m: CommitMsg)
    requires Inv(s, env) && SubmitCommit(BallotsOf(s), s.assignments, s.params, s.now, m).Ok?
    ensures Inv(WithBallots(s, SubmitCommit(BallotsOf(s), s.assignments, s.params, s.now, m).value), env)
  {
    SubmitCommitKeeps(BallotsOf(s), s.assignments, s.params, env, s.now, m);
    SubmitCommitFrame(BallotsOf(s), s.assignments, s.params, s.now, m);
    BallotsMoved(s, env, SubmitCommit(BallotsOf(s), s.assignments, s.params, s.now, m).value);
  }

  lemma RevealKeeps(s: State, env: Env, m: C.Reveal)
    requires Inv(s, env) && RevealVote(BallotsOf(s), s.assignments, s.params, env, s.now, m).Ok?
    ensures Inv(WithBallots(s, RevealVote(BallotsOf(s), s.assignments, s.params, env, s.now, m).value), env)
  {
    RevealVoteKeeps(BallotsOf(s), s.assignments, s.params, env, s.now, m);
    RevealKeepsTallies(BallotsOf(s), s.assignments, s.params, env, s.now, m, s.log.tallies);
    BallotsMoved(s, env, RevealVote(BallotsOf(s), s.assignments, s.params, env, s.now, m).value);
  }

  lemma MarketKeeps(s: State, env: Env, t: State)
    requires Inv(s, env) && MarketInv(t) && SameElsewhere(s.bank, t.bank, REGISTRY)
    requires t == s.(bank := t.bank, slots := t.slots, leases := t.leases, slotSeq := t.slotSeq, leaseSeq := t.leaseSeq)
    ensures Inv(t, env)
  {
    BondFrame(BondsOf(s), t.bank, s.bondParams, s.log.gifts, REGISTRY);
    PoolFrame(TreasuryOf(s), t.bank, |s.log.settlements|, s.params, s.log.gifts, REGISTRY);
  }

  lemma SlotKeeps(s: State, env: Env, m: SlotMsg)
    requires Inv(s, env) && CreateSlot(s, m).Ok?
    ensures Inv(CreateSlot(s, m).value, env)
  {
    CreateSlotKeeps(s, m);
    MarketKeeps(s, env, CreateSlot(s, m).value);
  }

  lemma StatusKeeps(s: State, env: Env, m: StatusMsg)
    requires Inv(s, env) && UpdateSlotStatus(s, m).Ok?
    ensures Inv(UpdateSlotStatus(s, m).value, env)
  {
    UpdateSlotStatusKeeps(s, m);
    MarketKeeps(s, env, UpdateSlotStatus(s, m).value);
  }

  lemma LeaseKeeps(s: State, env: Env, m: LeaseMsg)
    requires Inv(s, env) && LeaseSlot(s, env, m).Ok?
    ensures Inv(LeaseSlot(s, env, m).value, env)
  {
    LeaseSlotKeeps(s, env, m);
    MarketKeeps(s, env, LeaseSlot(s, env, m).value);
  }

  lemma BeaconKeeps(s: State, env: Env, m: BeaconMsg)
    requires Inv(s, env) && BeaconStep(s, env, m).Ok?
    ensures Inv(BeaconStep(s, env, m).value, env)
  {
    SubmitBeaconKeeps(s.beacons, s.params, env, s.now, s.lastRound, m, s.metas);
  }

  lemma BondsMoved(s: State, env: Env, e: B.Escrow)
    requires Inv(s, env) && B.BondsOk(e, s.bondParams, s.log.gifts) && SameElsewhere(s.bank, e.bank, VERIFIERS)
    ensures Inv(WithBonds(s, e), env)
  {
    BookFrame(BookOf(s), e.bank, s.slots, s.leaseSeq, s.log.gifts, VERIFIERS);
    PoolFrame(TreasuryOf(s), e.bank, |s.log.settlements|, s.params, s.log.gifts, VERIFIERS);
  }

  lemma BondKeeps(s: State, env: Env, m: B.BondMsg)
    requires Inv(s, env) && B.BondCoins(BondsOf(s), s.bondParams, m).Ok?
    ensures Inv(WithBonds(s, B.BondCoins(BondsOf(s), s.bondParams, m).value), env)
  {
    B.BondCoinsKeeps(BondsOf(s), s.bondParams, m, s.log.gifts);
    B.OtherAccountsKept(BondsOf(s), s.bondParams, m);
    BondsMoved(s, env, B.BondCoins(BondsOf(s), s.bondParams, m).value);
  }

  lemma UnbondKeeps(s: State, env: Env, m: B.BondMsg)
    requires Inv(s, env) && B.UnbondCoins(BondsOf(s), s.bondParams, m).Ok?
    ensures Inv(WithBonds(s, B.UnbondCoins(BondsOf(s), s.bondParams, m).value), env)
  {
    B.UnbondCoinsKeeps(BondsOf(s), s.bondParams, m, s.log.gifts);
    B.OtherAccountsKept(BondsOf(s), s.bondParams, m);
    BondsMoved(s, env, B.UnbondCoins(BondsOf(s), s.bondParams, m).value);
  }

  /** Every module account gained exactly what the gifts gained. */
  ghost predicate GiftsMatch(bank: Ledger, bank': Ledger, gifts: Ledger, gifts': Ledger) {
    forall a: Account, d :: a.Module? ==>
      Balance(bank', a, d) - Balance(bank, a, d) == Balance(gifts', a, d) - Balance(gifts, a, d)
  }

  lemma TransferMatches(s: State, from: string, to: Account, denom: string, amount: nat)
    requires TransferStep(s, from, to, denom, amount).Ok?
    ensures var t := TransferStep(s, from, to, denom, amount).value;
      GiftsMatch(s.bank, t.bank, s.log.gifts, t.log.gifts)
  {
  }

  lemma GiftKeepsBook(b: Book, bank: Ledger, gifts: Ledger, gifts': Ledger, slots: map<string, Slot>, leaseSeq: nat)
    requires BookOk(b, slots, leaseSeq, gifts) && GiftsMatch(b.bank, bank, gifts, gifts')
    ensures BookOk(b.(bank := bank), slots, leaseSeq, gifts')
  {
  }

  lemma GiftKeepsBonds(e: B.Escrow, bank: Ledger, p: BondParams, gifts: Ledger, gifts': Ledger)
    requires B.BondsOk(e, p, gifts) && GiftsMatch(e.bank, bank, gifts, gifts')
    ensures B.BondsOk(e.(bank := bank), p, gifts')
  {
  }

  lemma GiftKeepsPool(t: P.Treasury, bank: Ledger, n: nat, p: Params, gifts: Ledger, gifts': Ledger)
    requires p.roundInterval > 0 && PoolOk(t, n, p, gifts) && GiftsMatch(t.bank, bank, gifts, gifts')
    ensures PoolOk(t.(bank := bank), n, p, gifts')
  {
  }

  lemma TransferKeeps(s: State, env: Env, from: string, to: Account, denom: string, amount: nat)
    requires Inv(s, env) && TransferStep(s, from, to, denom, amount).Ok?
    ensures Inv(TransferStep(s, from, to, denom, amount).value, env)
  {
    var t := TransferStep(s, from, to, denom, amount).value;
    TransferMatches(s, from, to, denom, amount);
    GiftKeepsBook(BookOf(s), t.bank, s.log.gifts, t.log.gifts, s.slots, s.leaseSeq);
    GiftKeepsBonds(BondsOf(s), t.bank, s.bondParams, s.log.gifts, t.log.gifts);
    GiftKeepsPool(TreasuryOf(s), t.bank, |s.log.settlements|, s.params, s.log.gifts, t.log.gifts);
  }

  lemma NextBlockKeeps(s: State, env: Env, time: int, height: int)
    requires Inv(s, env) && NextBlockStep(s, time, height).Ok?
    ensures Inv(NextBlockStep(s, time, height).value, env)
  {
  }

  // The upgrade.

  /** The parameter that the upgrade resets concerns publisher claims only. */
  predicate SameButMinimum(p: Params, q: Params) {
    q == p.(publisherMinRewardBps := q.publisherMinRewardBps)
  }

  lemma MinimumKeepsPools(p: Params, q: Params)
    requires p.Valid() && q.Valid() && SameButMinimum(p, q)
    ensures E.PerRound(q) == E.PerRound(p) && E.Target(q) == E.Target(p)
  {
  }

  lemma MinimumKeepsSchedule(p: Params, q: Params, r: int)
    requires SameButMinimum(p, q)
    ensures DrandSchedule.RequiredRound(q, r) == DrandSchedule.RequiredRound(p, r)
  {
  }

  lemma {:induction false} MinimumKeepsCooldown(p: Params, q: Params, w: Website, streak: int)
    requires SameButMinimum(p, q) && SiteOk(w, streak, p)
    ensures SiteOk(w, streak, q)
  {
  }

  lemma UpgradedPlan(plan: Plan, beacons: map<nat, Beacon>, p: Params, q: Params)
    requires p.Valid() && q.Valid() && SameButMinimum(p, q) && PlanOk(plan, beacons, p)
    ensures PlanOk(plan.(calendar := Migrate(plan.calendar)), beacons, q)
    ensures DutiesKept(plan.calendar.docket, Migrate(plan.calendar).docket)
  {
    MigrateKeeps(plan.calendar, p.roundInterval);
    forall r | r in plan.metas
      ensures DrandSchedule.RequiredRound(q, r) == DrandSchedule.RequiredRound(p, r)
    {
      MinimumKeepsSchedule(p, q, r);
    }
  }

  lemma UpgradedVotes(b: Ballots, docket: Docket, p: Params, q: Params, env: Env, tallies: map<AssignmentId, Stats>)
    requires VotesOk(b, docket, p, env) && TallyOk(docket, b.submissions, tallies) && SameButMinimum(p, q)
    requires DutiesKept(docket, SettleAll(docket))
    ensures VotesOk(b, SettleAll(docket), q, env) && TallyOk(SettleAll(docket), b.submissions, tallies)
  {
    VotesOkFrame(b, docket, SettleAll(docket), p, env);
    forall v | v in b.submissions
      ensures RevealOk(SettleAll(docket), q, env, v, b.commitLog[v], b.revealLog[v], b.submissions[v])
    {
      assert RevealOk(SettleAll(docket), p, env, v, b.commitLog[v], b.revealLog[v], b.submissions[v]);
    }
    forall k | k in docket
      ensures TallyOf(b.submissions, k, SettleAll(docket)[k]) == TallyOf(b.submissions, k, docket[k])
    {
    }
  }

  lemma UpgradedSites(websites: map<string, Website>, streaks: map<string, int>, p: Params, q: Params)
    requires SitesOk(websites, streaks, p) && SameButMinimum(p, q)
    ensures SitesOk(websites, streaks, q)
  {
    forall d | d in websites
      ensures SiteOk(websites[d], Streak(streaks, d), q)
    {
      MinimumKeepsCooldown(p, q, websites[d], Streak(streaks, d));
    }
  }

  lemma UpgradeKeeps(s: State, env: Env)
    requires Inv(s, env) && UpgradeStep(s).Ok?
    ensures Inv(UpgradeStep(s).value, env)
  {
    var t := UpgradeStep(s).value;
    UpgradedPlan(PlanOf(s), s.beacons, s.params, t.params);
    UpgradedVotes(BallotsOf(s), s.assignments, s.params, t.params, env, s.log.tallies);
    UpgradedSites(s.websites, s.streaks, s.params, t.params);
    MinimumKeepsPools(s.params, t.params);
  }

  // The end of a block.

  lemma SettleLeasesKeeps(s: State, env: Env)
    requires Inv(s, env)
    ensures SettleLeases(s).Ok? && Inv(SettleLeases(s).value, env)
  {
    var b := SettleLeasesExact(s, "", "");
    MarketKeeps(s, env, WithBook(s, b));
  }

  lemma AssignedTallies(docket: Docket, after: Docket, submissions: map<VoteId, Submission>, tallies: map<AssignmentId, Stats>)
    requires TallyOk(docket, submissions, tallies)
    requires forall k :: k in after ==> (k in docket && after[k] == docket[k]) || !after[k].finalized
    ensures TallyOk(after, submissions, tallies)
  {
  }

  lemma AssignStepKeeps(s: State, env: Env, anchor: string)
    requires Inv(s, env) && AssignStep(s, env, anchor).Ok?
    ensures Inv(AssignStep(s, env, anchor).value, env)
  {
    var plan := AssignNewRound(PlanOf(s), SceneOf(s, anchor), s.params, env, s.beacons).value;
    AssignKeeps(PlanOf(s), SceneOf(s, anchor), s.params, env, s.beacons);
    var after := plan.calendar.docket;
    forall k | k in after
      ensures (k in s.assignments && after[k] == s.assignments[k]) || (!after[k].finalized && k.domain in s.websites)
      ensures plan.calendar.settlements == s.log.settlements
    {
      AssignAdds(PlanOf(s), SceneOf(s, anchor), s.params, env, s.beacons, k);
    }
    AssignAdds(PlanOf(s), SceneOf(s, anchor), s.params, env, s.beacons, AssignmentId(0, ""));
    VotesOkFrame(BallotsOf(s), s.assignments, after, s.params, env);
    AssignedTallies(s.assignments, after, s.submissions, s.log.tallies);
  }

  lemma EndBlockKeeps(s: State, env: Env, anchor: string)
    requires Inv(s, env) && EndBlockStep(s, env, anchor).Ok?
    ensures Inv(EndBlockStep(s, env, anchor).value, env)
  {
    FinalizeKeeps(s, env);
    var finalized := FinalizeAssignments(s).value;
    S.SettleRoundsKeeps(finalized, env);
    var paid := S.SettleRounds(finalized).value;
    SettleLeasesKeeps(paid, env);
    AssignStepKeeps(SettleLeases(paid).value, env, anchor);
  }

  lemma MessageKeeps(s: State, env: Env, e: Event)
    requires IsMessage(e) && Inv(s, env) && MessageStep(s, env, e).Ok?
    ensures Inv(MessageStep(s, env, e).value, env)
  {
    match e
    case Register(m) => RegisterKeeps(s, env, m);
    case Commit(m) => CommitKeeps(s, env, m);
    case Reveal(m) => RevealKeeps(s, env, m);
    case NewSlot(m) => SlotKeeps(s, env, m);
    case SlotStatus(m) => StatusKeeps(s, env, m);
    case NewLease(m) => LeaseKeeps(s, env, m);
    case SendBeacon(m) => BeaconKeeps(s, env, m);
    case Bond(m) => BondKeeps(s, env, m);
    case Unbond(m) => UnbondKeeps(s, env, m);
    case Transfer(from, to, denom, amount) => TransferKeeps(s, env, from, to, denom, amount);
    case Upgrade => UpgradeKeeps(s, env);
  }

  lemma StepKeeps(s: State, env: Env, e: Event)
    requires Inv(s, env) && Step(s, env, e).Ok?
    ensures Inv(Step(s, env, e).value, env)
  {
    if e.EndBlock? { EndBlockKeeps(s, env, e.anchor); }
    else if e.NextBlock? { NextBlockKeeps(s, env, e.time, e.height); }
    else { MessageKeeps(s, env, e); }
  }

  lemma {:induction false} RunKeeps(s: State, env: Env, events: seq<Event>)
    requires Inv(s, env)
    ensures Inv(Run(s, env, events), env)
  {
    if events != [] {
      var n := |events| - 1;
      RunKeeps(s, env, events[..n]);
      var t := Run(s, env, events[..n]);
      if Step(t, env, events[n]).Ok? { StepKeeps(t, env, events[n]); }
    }
  }

  /** The invariant holds in every state that any sequence of events can reach from genesis. */
  lemma ReachableOk(s: State, env: Env, events: seq<Event>)
    requires Genesis(s)
    ensures Inv(Run(s, env, events), env)
  {
    GenesisOk(s, env);
    RunKeeps(s, env, events);
  }

  /** The upgrade resets the publishers' minimum reward to 10 percent and settles every assignment; nothing else changes. */
  lemma UpgradeExact(s: State, env: Env, k: AssignmentId)
    requires Inv(s, env) && UpgradeStep(s).Ok?
    ensures var t := UpgradeStep(s).value;
      && t.params == s.params.(publisherMinRewardBps := 1000) && t.unsettled == {}
      && t == s.(params := t.params, assignments := t.assignments, unsettled := t.unsettled)
      && t.assignments.Keys == s.assignments.Keys
      && (k in s.assignments ==> t.assignments[k] == s.assignments[k].(settled := true))
  {
    NothingWaits(s.assignments, s.unsettled);
    UpgradedFields(s);
  }

  lemma NothingWaits(docket: Docket, unsettled: set<int>)
    requires IndexExact(docket, unsettled)
    ensures unsettled - RoundsOf(docket) == {}
  {
    forall r | r in unsettled
      ensures r in RoundsOf(docket)
    {
      assert OpenRound(docket, r);
      var l :| l in docket && l.round == r;
    }
  }

  lemma UpgradedFields(s: State)
    requires UpgradeStep(s).Ok?
    ensures var t := UpgradeStep(s).value;
      && t.params == s.params.(publisherMinRewardBps := 1000)
      && t.assignments == SettleAll(s.assignments) && t.unsettled == s.unsettled - RoundsOf(s.assignments)
      && t == s.(params := t.params, assignments := t.assignments, unsettled := t.unsettled)
  {
  }

  /** A transfer goes through exactly when the sender has the coins; it moves them to the recipient and nothing else. */
  lemma TransferExact(s: State, from: string, to: Account, denom: string, amount: nat, a: Account, d: string)
    ensures TransferStep(s, from, to, denom, amount).Ok? <==> amount <= Balance(s.bank, User(from), denom)
    ensures TransferStep(s, from, to, denom, amount).Ok? ==>
      Balance(TransferStep(s, from, to, denom, amount).value.bank, a, d)
      == Balance(s.bank, a, d) + (if d == denom && a == to then amount else 0) - (if d == denom && a == User(from) then amount else 0)
  {
  }
}
