// The invariant of every reachable state, as one conjunction over the parts of the chain state.
module Invariant {
  import opened Base
  import opened Bank
  import opened PublisherParams
  import opened StoreKeys
  import opened ChainState
  import opened Market
  import opened LeaseSettlement
  import opened Verdicts
  import opened Votes
  import opened Rounds
  import opened Assigning
  import opened Solvency
  import P = Payments
  import B = Bonding
  import G = Registration

  // The parts.

  function EstateOf(s: State): Estate {
    Estate(s.websites, s.streaks, s.slots, BookOf(s))
  }

  function CalendarOf(s: State): Calendar {
    Calendar(s.assignments, s.unsettled, s.lastRound, s.log.settlements)
  }

  function PlanOf(s: State): Plan {
    Plan(CalendarOf(s), s.metas)
  }

  function BallotsOf(s: State): Ballots {
    Ballots(s.commits, s.submissions, s.log.commitLog, s.log.revealLog)
  }

  function BondsOf(s: State): B.Escrow {
    B.Escrow(s.bank, s.bonds, s.log.stranded)
  }

  function SitesOf(s: State): G.Sites {
    G.Sites(s.websites, s.primary)
  }

  function TreasuryOf(s: State): P.Treasury {
    P.Treasury(s.bank, s.funded, s.log.paid, s.log.burned)
  }

  function RecordsOf(s: State): P.Records {
    P.Records(s.assignments, s.submissions, s.websites, s.bonds)
  }

  function SceneOf(s: State, anchor: string): Scene {
    Scene(s.websites, s.bonds, s.bondParams.minBond, s.penalties, s.now, anchor)
  }

  function WithEstate(s: State, e: Estate): State {
    s.(websites := e.websites, streaks := e.streaks, slots := e.slots, bank := e.book.bank, leases := e.book.leases)
  }

  function WithCalendar(s: State, c: Calendar): State {
    s.(assignments := c.docket, unsettled := c.unsettled, lastRound := c.lastRound, log := s.log.(settlements := c.settlements))
  }

  function WithTreasury(s: State, t: P.Treasury): State {
    s.(bank := t.bank, funded := t.funded, log := s.log.(paid := t.paid, burned := t.burned))
  }

  function WithBallots(s: State, b: Ballots): State {
    s.(commits := b.commits, submissions := b.submissions, log := s.log.(commitLog := b.commitLog, revealLog := b.revealLog))
  }

  function WithBonds(s: State, e: B.Escrow): State {
    s.(bank := e.bank, bonds := e.bonds, log := s.log.(stranded := e.stranded))
  }

  // The invariant.

  predicate ClockOk(s: State) {
    s.params.Valid() && s.params.InRange() && 0 <= s.now <= MAX_TIME
  }

  /** Slots, leases and the escrow ledger. */
  ghost predicate MarketPart(s: State) {
    EstateOk(EstateOf(s), s.slotSeq, s.leaseSeq, s.log.gifts)
  }

  /** Websites: the primary-domain index, status, streak and cooldown. */
  ghost predicate SitePart(s: State, env: Env) {
    G.IndexOk(SitesOf(s), env) && SitesOk(s.websites, s.streaks, s.params)
  }

  /** Rounds: schedule, index, exactly-once settlement, one beacon per round; assigned domains are registered. */
  ghost predicate RoundPart(s: State)
    requires s.params.Valid()
  {
    PlanOk(PlanOf(s), s.beacons, s.params) && forall k :: k in s.assignments ==> k.domain in s.websites
  }

  /** Votes: commit-reveal safety and frozen tallies. */
  ghost predicate VotePart(s: State, env: Env) {
    VotesOk(BallotsOf(s), s.assignments, s.params, env) && TallyOk(s.assignments, s.submissions, s.log.tallies)
  }

  /** The verifiers account. */
  ghost predicate BondPart(s: State) {
    B.BondsOk(BondsOf(s), s.bondParams, s.log.gifts)
  }

  /** The tokenomics account. */
  ghost predicate PoolPart(s: State)
    requires s.params.Valid()
  {
    PoolOk(TreasuryOf(s), |s.log.settlements|, s.params, s.log.gifts)
  }

  ghost predicate Inv(s: State, env: Env) {
    && ClockOk(s)
    && MarketPart(s)
    && SitePart(s, env)
    && RoundPart(s)
    && VotePart(s, env)
    && BondPart(s)
    && PoolPart(s)
  }

  // Frames: a step that moves one module account leaves the other two ledgers in balance.

  lemma BondFrame(e: B.Escrow, bank: Ledger, p: BondParams, gifts: Ledger, changed: Account)
    requires B.BondsOk(e, p, gifts) && SameElsewhere(e.bank, bank, changed) && changed != VERIFIERS
    ensures B.BondsOk(e.(bank := bank), p, gifts)
  {
  }

  lemma PoolFrame(t: P.Treasury, bank: Ledger, n: nat, p: Params, gifts: Ledger, changed: Account)
    requires p.roundInterval > 0 && PoolOk(t, n, p, gifts) && SameElsewhere(t.bank, bank, changed) && changed != TOKENOMICS
    ensures PoolOk(t.(bank := bank), n, p, gifts)
  {
  }

  lemma BookFrame(b: Book, bank: Ledger, slots: map<string, Slot>, leaseSeq: nat, gifts: Ledger, changed: Account)
    requires BookOk(b, slots, leaseSeq, gifts) && SameElsewhere(b.bank, bank, changed) && changed != REGISTRY
    ensures BookOk(b.(bank := bank), slots, leaseSeq, gifts)
  {
  }
}
