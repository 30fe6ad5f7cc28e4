// Settling the rounds whose assignments are all finalized
// (x/registry/verification_rounds.go, settleFinalizedVerificationRounds).
module Settlement {
  import opened Base
  import opened Folds
  import opened Orders
  import opened Arith
  import opened Bank
  import opened PublisherParams
  import opened StoreKeys
  import opened ChainState
  import opened Market
  import opened Verdicts
  import opened Tally
  import opened Votes
  import opened Rounds
  import opened Assigning
  import opened Solvency
  import opened Invariant
  import P = Payments
  import B = Bonding
  import E = Emission
  import R = RewardSplit

  /** One indexed round; parameters are validated whenever they are stored. */
  function SettleRound(s: State, r: int): Result<State, Error> {
    if !s.params.Valid() then Err(Invalid)
    else
      match Decide(s.assignments, r)
      case Clear => Ok(s.(unsettled := s.unsettled - {r}))
      case Wait => Ok(s)
      case Refuse => Err(PartiallySettled)
      case Pay =>
        match Payout(s, r)
        case Err(e) => Err(e)
        case Ok(t) => if RoundStorable(s.assignments, r) then Ok(Paid(s, r, t)) else Err(Invalid)
  }

  /** Marking a round stores its assignments again. */
  predicate RoundStorable(docket: Docket, r: int) {
    forall k :: k in RoundKeys(docket, r) ==> Storable(k, docket[k])
  }

  lemma StoredStaysStorable(s: State, env: Env, r: int)
    requires Inv(s, env)
    ensures RoundStorable(s.assignments, r)
  {
    assert forall k :: k in s.assignments ==> DutyOk(k, s.assignments[k], s.params);
  }

  function Paid(s: State, r: int, t: P.Treasury): State {
    WithCalendar(WithTreasury(s, t), MarkPaid(CalendarOf(s), r))
  }

  /** The treasury after paying round r. */
  function Payout(s: State, r: int): Result<P.Treasury, Error>
    requires s.params.Valid()
  {
    P.SettlePayments(TreasuryOf(s), RecordsOf(s), s.params, r)
  }

  function SettleRounds(s: State): Result<State, Error> {
    var rounds := SortedInts(s.unsettled);
    Fold(SettleRound, s, rounds, |rounds|)
  }

  /** What settlement leaves alone. */
  predicate Untouched(s: State, t: State) {
    && t.now == s.now && t.height == s.height && t.params == s.params && t.bondParams == s.bondParams
    && t.websites == s.websites && t.primary == s.primary && t.streaks == s.streaks
    && t.slots == s.slots && t.leases == s.leases && t.slotSeq == s.slotSeq && t.leaseSeq == s.leaseSeq
    && t.lastRound == s.lastRound && t.metas == s.metas && t.beacons == s.beacons
    && t.commits == s.commits && t.submissions == s.submissions && t.penalties == s.penalties && t.bonds == s.bonds
    && t.log == s.log.(settlements := t.log.settlements, paid := t.log.paid, burned := t.log.burned)
  }

  lemma PaidUntouched(s: State, r: int, t: P.Treasury)
    ensures Untouched(s, Paid(s, r, t))
    ensures CalendarOf(Paid(s, r, t)) == MarkPaid(CalendarOf(s), r)
    ensures TreasuryOf(Paid(s, r, t)) == t
  {
  }

  predicate Paying(s: State, r: int) {
    s.params.Valid() && Decide(s.assignments, r) == Pay
  }

  lemma PayingIsOpen(c: Calendar, r: int, interval: int)
    requires interval > 0 && CalendarOk(c, interval) && Decide(c.docket, r) == Pay
    ensures r in c.unsettled && AllFinalized(c.docket, r)
  {
    var k :| k in RoundKeys(c.docket, r) && !c.docket[k].settled;
    assert OpenRound(c.docket, r);
  }

  lemma ClearIsIdle(c: Calendar, r: int, interval: int)
    requires interval > 0 && CalendarOk(c, interval) && Decide(c.docket, r) == Clear
    ensures r !in c.unsettled
  {
  }

  /** A step that does not pay changes nothing. */
  lemma NotPaying(s: State, env: Env, r: int)
    requires Inv(s, env) && !Paying(s, r) && SettleRound(s, r).Ok?
    ensures SettleRound(s, r).value == s
  {
    if Decide(s.assignments, r) == Clear {
      ClearIsIdle(CalendarOf(s), r, s.params.roundInterval);
      assert s.unsettled - {r} == s.unsettled;
    }
  }

  lemma PaidRounds(s: State, r: int, t: P.Treasury)
    requires RoundPartOf(s) && Paying(s, r)
    ensures RoundPartOf(Paid(s, r, t))
    ensures DutiesKept(s.assignments, Paid(s, r, t).assignments)
  {
    PaidUntouched(s, r, t);
    PayingIsOpen(CalendarOf(s), r, s.params.roundInterval);
    MarkPaidKeeps(CalendarOf(s), r, s.params.roundInterval);
  }

  ghost predicate RoundPartOf(s: State) {
    s.params.Valid() && RoundPart(s)
  }

  lemma PaidVotes(s: State, env: Env, r: int, t: P.Treasury)
    requires VotePart(s, env) && DutiesKept(s.assignments, Paid(s, r, t).assignments)
    ensures VotePart(Paid(s, r, t), env)
  {
    PaidUntouched(s, r, t);
    VotesOkFrame(BallotsOf(s), s.assignments, Paid(s, r, t).assignments, s.params, env);
    PaidTallies(s.assignments, r, s.submissions, s.log.tallies);
  }

  lemma PaidTallies(docket: Docket, r: int, submissions: map<VoteId, Submission>, tallies: map<AssignmentId, Stats>)
    requires TallyOk(docket, submissions, tallies)
    ensures TallyOk(Settle(docket, r), submissions, tallies)
  {
    forall k | k in docket
      ensures TallyOf(submissions, k, Settle(docket, r)[k]) == TallyOf(submissions, k, docket[k])
    {
    }
  }

  lemma PaidMoney(s: State, env: Env, r: int, t: P.Treasury)
    requires Inv(s, env) && Payout(s, r) == Ok(t)
    ensures PoolOk(t, |s.log.settlements| + 1, s.params, s.log.gifts)
    ensures BookOk(BookOf(s).(bank := t.bank), s.slots, s.leaseSeq, s.log.gifts)
    ensures B.BondsOk(BondsOf(s).(bank := t.bank), s.bondParams, s.log.gifts)
  {
    SettlePaymentsKeeps(TreasuryOf(s), RecordsOf(s), |s.log.settlements|, s.params, r, s.log.gifts);
    BookFrame(BookOf(s), t.bank, s.slots, s.leaseSeq, s.log.gifts, TOKENOMICS);
    BondFrame(BondsOf(s), t.bank, s.bondParams, s.log.gifts, TOKENOMICS);
  }

  lemma PaidKeeps(s: State, env: Env, r: int, t: P.Treasury)
    requires Inv(s, env) && Paying(s, r) && Payout(s, r) == Ok(t)
    ensures Inv(Paid(s, r, t), env)
  {
    PaidUntouched(s, r, t);
    PaidRounds(s, r, t);
    PaidVotes(s, env, r, t);
    PaidMoney(s, env, r, t);
  }

  lemma SettleRoundKeeps(s: State, env: Env, r: int)
    requires Inv(s, env) && SettleRound(s, r).Ok?
    ensures Inv(SettleRound(s, r).value, env)
  {
    if Paying(s, r) {
      SettledIsPaid(s, r);
      PaidKeeps(s, env, r, Payout(s, r).value);
    } else {
      NotPaying(s, env, r);
    }
  }

  lemma SettledIsPaid(s: State, r: int)
    requires Paying(s, r) && SettleRound(s, r).Ok?
    ensures Payout(s, r).Ok? && SettleRound(s, r).value == Paid(s, r, Payout(s, r).value)
  {
  }

  lemma SettleRoundsKeeps(s: State, env: Env)
    requires Inv(s, env) && SettleRounds(s).Ok?
    ensures Inv(SettleRounds(s).value, env)
  {
    var rounds := SortedInts(s.unsettled);
    var inv := (t: State, n: nat) => Inv(t, env);
    forall t, i: nat | i < |rounds| && inv(t, i) && SettleRound(t, rounds[i]).Ok?
      ensures inv(SettleRound(t, rounds[i]).value, i + 1)
    {
      SettleRoundKeeps(t, env, rounds[i]);
    }
    FoldPreserves(SettleRound, s, rounds, |rounds|, inv);
  }

  // When settlement succeeds.

  /** The funds and entries that paying round r takes. */
  ghost predicate Payable(s: State, r: int)
    requires s.params.Valid()
  {
    && E.SettlementPools(s.params).Some?
    && P.VerifierBatch(RecordsOf(s), s.params, r, E.SettlementPools(s.params).value.verifier).Ok?
    && (|s.log.settlements| + 1) * E.PerRound(s.params) <= E.Target(s.params) + Balance(s.log.gifts, TOKENOMICS, REWARD_DENOM)
  }

  lemma PayoutIff(s: State, env: Env, r: int)
    requires Inv(s, env)
    ensures Payout(s, r).Ok? <==> Payable(s, r)
  {
    SettlesIff(TreasuryOf(s), RecordsOf(s), |s.log.settlements|, s.params, r, s.log.gifts);
  }

  /**
   * In a state that keeps the invariant a round fails to settle only for lack of funds or of a payout entry:
   * the partially-settled error cannot occur.
   */
  lemma SettleRoundIff(s: State, env: Env, r: int)
    requires Inv(s, env)
    ensures SettleRound(s, r).Ok? <==> (Paying(s, r) ==> Payable(s, r))
  {
    PayoutIff(s, env, r);
    StoredStaysStorable(s, env, r);
    NeverRefused(CalendarOf(s), r, s.params.roundInterval);
  }

  lemma NeverRefused(c: Calendar, r: int, interval: int)
    requires interval > 0 && CalendarOk(c, interval)
    ensures Decide(c.docket, r) != Refuse
  {
    if !AllSettled(c.docket, r) {
      var k :| k in RoundKeys(c.docket, r) && !c.docket[k].settled;
      assert forall l :: l in RoundKeys(c.docket, r) ==> c.docket[l].settled == c.docket[k].settled;
    }
  }

  /** Every possible panel finds a base unit per member in its assignment's share of the verifier pool. */
  ghost predicate BaseCovers(p: Params, sites: nat)
    requires p.Valid() && E.SettlementPools(p).Some?
  {
    forall n: nat :: 0 < n <= sites ==>
      p.minVerifierCount <= R.BasePool(P.Share(E.SettlementPools(p).value.verifier, n), p.BaseShareBps())
  }

  lemma PassersOnPanel(b: Ballots, docket: Docket, p: Params, env: Env, k: AssignmentId)
    requires VotesOk(b, docket, p, env) && k in docket && DutyOk(k, docket[k], p)
    ensures |P.Successful(b.submissions, k)| <= p.minVerifierCount
  {
    PanelBound(b, docket, p, env, k);
    var passing := PassingVoters(b.submissions, k);
    EnumerationLength(P.Successful(b.submissions, k), passing);
    EnumerationLength(docket[k].verifiers, Elems(docket[k].verifiers));
    SubsetSize(passing, Elems(docket[k].verifiers));
  }

  lemma RoundFitsSites(docket: Docket, websites: map<string, Website>, r: int)
    requires forall k :: k in docket ==> k.domain in websites
    ensures |RoundKeys(docket, r)| <= |websites|
  {
    var all := set d | d in websites :: AssignmentId(r, d);
    DomainsToKeys(websites.Keys, r);
    SubsetSize(RoundKeys(docket, r), all);
  }

  lemma {:induction false} DomainsToKeys(domains: set<string>, r: int)
    ensures |set d | d in domains :: AssignmentId(r, d)| == |domains|
  {
    var all := set d | d in domains :: AssignmentId(r, d);
    if domains != {} {
      var d :| d in domains;
      DomainsToKeys(domains - {d}, r);
      assert all == (set e | e in domains - {d} :: AssignmentId(r, e)) + {AssignmentId(r, d)};
    } else {
      assert all == {};
    }
  }

  lemma {:induction false} BatchDefined(x: P.Records, p: Params, active: seq<AssignmentId>, per: nat)
    requires forall i :: 0 <= i < |active| ==> |P.Successful(x.submissions, active[i])| <= R.BasePool(per, p.BaseShareBps())
    ensures P.AllVerifierPayments(x, p, active, per).Ok?
  {
    if active != [] {
      BatchDefined(x, p, active[..|active| - 1], per);
      P.BaseCoversAll(x, p, active[|active| - 1], per);
    }
  }

  lemma RoundDefined(s: State, env: Env, r: int)
    requires Inv(s, env) && E.SettlementPools(s.params).Some? && BaseCovers(s.params, |s.websites|)
    ensures P.VerifierBatch(RecordsOf(s), s.params, r, E.SettlementPools(s.params).value.verifier).Ok?
  {
    var x, pool := RecordsOf(s), E.SettlementPools(s.params).value.verifier;
    var ks := P.Keys(x, r);
    var active := P.Active(x, r);
    if active != [] {
      EnumerationLength(ks, RoundKeys(s.assignments, r));
      RoundFitsSites(s.assignments, s.websites, r);
      assert |ks| > 0;
      forall i | 0 <= i < |active|
        ensures |P.Successful(s.submissions, active[i])| <= R.BasePool(P.Share(pool, |ks|), s.params.BaseShareBps())
      {
        PassersOnPanel(BallotsOf(s), s.assignments, s.params, env, active[i]);
      }
      BatchDefined(x, s.params, active, P.Share(pool, |ks|));
    }
  }

  /** Everything the emission schedule and the bond shares must satisfy for rewards to flow. */
  ghost predicate Sustainable(p: Params, sites: nat)
    requires p.Valid()
  {
    E.SettlementPools(p).Some? && E.Affordable(p) && BaseCovers(p, sites)
  }

  lemma SettleRoundGrows(s: State, env: Env, r: int)
    requires Inv(s, env) && SettleRound(s, r).Ok?
    ensures SettleRound(s, r).value.log.settlements == if Paying(s, r) then s.log.settlements + [r] else s.log.settlements
    ensures Untouched(s, SettleRound(s, r).value)
  {
    if Paying(s, r) {
      SettledIsPaid(s, r);
      PaidUntouched(s, r, Payout(s, r).value);
    } else {
      NotPaying(s, env, r);
      UntouchedRefl(s);
    }
  }

  // What settlement changes.

  /** The docket changed in settled flags only, and none was taken back. */
  ghost predicate FlagsOnly(before: Docket, after: Docket) {
    && after.Keys == before.Keys
    && forall k :: k in before ==>
         after[k] == before[k].(settled := after[k].settled) && (before[k].settled ==> after[k].settled)
  }

  /** The rounds among the first n that are completely finalized. */
  function Ready(docket: Docket, rounds: seq<int>, n: nat): seq<int>
    requires n <= |rounds|
  {
    if n == 0 then []
    else Ready(docket, rounds, n - 1) + (if AllFinalized(docket, rounds[n - 1]) then [rounds[n - 1]] else [])
  }

  ghost predicate SettledUpTo(before: Calendar, rounds: seq<int>, c: Calendar, n: nat) {
    && n <= |rounds|
    && FlagsOnly(before.docket, c.docket)
    && c.settlements == before.settlements + Ready(before.docket, rounds, n)
    && (forall i :: n <= i < |rounds| ==> rounds[i] in c.unsettled)
    && (forall r :: r in before.unsettled && !AllFinalized(before.docket, r) ==> r in c.unsettled)
    && c.unsettled <= before.unsettled
  }

  lemma SettleFlagsOnly(docket: Docket, r: int)
    ensures FlagsOnly(docket, Settle(docket, r))
  {
  }

  /** One indexed round is paid if it is completely finalized, and is left alone otherwise. */
  ghost predicate RoundEffect(c: Calendar, after: Calendar, r: int) {
    && FlagsOnly(c.docket, after.docket)
    && after.settlements == (if AllFinalized(c.docket, r) then c.settlements + [r] else c.settlements)
    && after.unsettled == (if AllFinalized(c.docket, r) then c.unsettled - {r} else c.unsettled)
  }

  lemma PaidEffect(t: State, r: int, treasury: P.Treasury)
    requires AllFinalized(t.assignments, r)
    ensures RoundEffect(CalendarOf(t), CalendarOf(Paid(t, r, treasury)), r)
  {
    PaidUntouched(t, r, treasury);
    SettleFlagsOnly(t.assignments, r);
  }

  lemma NoEffect(c: Calendar, r: int)
    requires !AllFinalized(c.docket, r)
    ensures RoundEffect(c, c, r)
  {
  }

  lemma SettleRoundEffect(t: State, r: int)
    requires t.params.Valid() && CalendarOk(CalendarOf(t), t.params.roundInterval) && r in t.unsettled && SettleRound(t, r).Ok?
    ensures RoundEffect(CalendarOf(t), CalendarOf(SettleRound(t, r).value), r)
  {
    NeverPartiallySettled(CalendarOf(t), r, t.params.roundInterval);
    if Paying(t, r) { PaidEffect(t, r, Payout(t, r).value); } else { NoEffect(CalendarOf(t), r); }
  }

  lemma SameFinalized(before: Docket, after: Docket, r: int)
    requires FlagsOnly(before, after)
    ensures AllFinalized(after, r) <==> AllFinalized(before, r)
  {
    assert RoundKeys(after, r) == RoundKeys(before, r);
  }

  lemma FlagsTrans(a: Docket, b: Docket, c: Docket)
    requires FlagsOnly(a, b) && FlagsOnly(b, c)
    ensures FlagsOnly(a, c)
  {
  }

  lemma SettleAdvance(before: Calendar, rounds: seq<int>, c: Calendar, after: Calendar, n: nat)
    requires SettledUpTo(before, rounds, c, n) && n < |rounds| && NoDup(rounds) && RoundEffect(c, after, rounds[n])
    ensures SettledUpTo(before, rounds, after, n + 1)
  {
    SameFinalized(before.docket, c.docket, rounds[n]);
    FlagsTrans(before.docket, c.docket, after.docket);
  }

  /** The invariant together with the progress made so far. */
  ghost predicate Progress(s: State, env: Env, rounds: seq<int>, t: State, n: nat) {
    Inv(t, env) && SettledUpTo(CalendarOf(s), rounds, CalendarOf(t), n) && Untouched(s, t)
  }

  lemma UntouchedTrans(s: State, t: State, u: State)
    requires Untouched(s, t) && Untouched(t, u)
    ensures Untouched(s, u)
  {
  }

  lemma SettleExactStep(s: State, env: Env, rounds: seq<int>, t: State, n: nat)
    requires Progress(s, env, rounds, t, n) && n < |rounds| && NoDup(rounds) && SettleRound(t, rounds[n]).Ok?
    ensures Progress(s, env, rounds, SettleRound(t, rounds[n]).value, n + 1)
  {
    var u := SettleRound(t, rounds[n]).value;
    SettleRoundKeeps(t, env, rounds[n]);
    SettleRoundEffect(t, rounds[n]);
    SettleRoundGrows(t, env, rounds[n]);
    SettleAdvance(CalendarOf(s), rounds, CalendarOf(t), CalendarOf(u), n);
    UntouchedTrans(s, t, u);
  }

  ghost function ProgressInv(s: State, env: Env, rounds: seq<int>): (State, nat) -> bool {
    (t: State, n: nat) => Progress(s, env, rounds, t, n)
  }

  lemma ProgressStart(s: State, env: Env, rounds: seq<int>)
    requires Inv(s, env) && forall i :: 0 <= i < |rounds| ==> rounds[i] in s.unsettled
    ensures ProgressInv(s, env, rounds)(s, 0)
  {
    NothingSettledYet(CalendarOf(s), rounds);
    UntouchedRefl(s);
  }

  lemma NothingSettledYet(c: Calendar, rounds: seq<int>)
    requires forall i :: 0 <= i < |rounds| ==> rounds[i] in c.unsettled
    ensures SettledUpTo(c, rounds, c, 0)
  {
  }

  lemma UntouchedRefl(s: State)
    ensures Untouched(s, s)
  {
  }

  lemma ProgressCarried(s: State, env: Env, rounds: seq<int>)
    requires NoDup(rounds)
    ensures Preserves(SettleRound, rounds, ProgressInv(s, env, rounds))
  {
    forall t, i: nat | i < |rounds| && ProgressInv(s, env, rounds)(t, i) && SettleRound(t, rounds[i]).Ok?
      ensures ProgressInv(s, env, rounds)(SettleRound(t, rounds[i]).value, i + 1)
    {
      SettleExactStep(s, env, rounds, t, i);
    }
  }

  lemma SettleRoundsUpTo(s: State, env: Env, rounds: seq<int>, t: State)
    requires ProgressInv(s, env, rounds)(s, 0) && NoDup(rounds) && Fold(SettleRound, s, rounds, |rounds|) == Ok(t)
    ensures ProgressInv(s, env, rounds)(t, |rounds|)
  {
    ProgressCarried(s, env, rounds);
    FoldPreserves(SettleRound, s, rounds, |rounds|, ProgressInv(s, env, rounds));
  }

  lemma ProgressEnd(s: State, env: Env, rounds: seq<int>, t: State)
    requires ProgressInv(s, env, rounds)(t, |rounds|)
    ensures Untouched(s, t) && FlagsOnly(s.assignments, t.assignments)
    ensures t.log.settlements == s.log.settlements + Ready(s.assignments, rounds, |rounds|)
    ensures t.unsettled <= s.unsettled && forall r :: r in s.unsettled && !AllFinalized(s.assignments, r) ==> r in t.unsettled
  {
  }

  /** Settlement pays exactly the indexed rounds that are completely finalized, in order, each once. */
  lemma SettleRoundsExact(s: State, env: Env)
    requires Inv(s, env) && SettleRounds(s).Ok?
    ensures var t, rounds := SettleRounds(s).value, SortedInts(s.unsettled);
      && Untouched(s, t) && FlagsOnly(s.assignments, t.assignments)
      && t.log.settlements == s.log.settlements + Ready(s.assignments, rounds, |rounds|)
      && t.unsettled <= s.unsettled && forall r :: r in s.unsettled && !AllFinalized(s.assignments, r) ==> r in t.unsettled
  {
    var rounds := SortedInts(s.unsettled);
    EnumerationElems(rounds, s.unsettled);
    ProgressStart(s, env, rounds);
    SettleRoundsUpTo(s, env, rounds, SettleRounds(s).value);
    ProgressEnd(s, env, rounds, SettleRounds(s).value);
  }

  // Exactly when settlement succeeds.

  /** The docket that settlement reads differs from another one in settled flags only. */
  ghost predicate SameReading(x: P.Records, y: P.Records) {
    FlagsOnly(x.docket, y.docket) && y.submissions == x.submissions && y.websites == x.websites && y.bonds == x.bonds
  }

  lemma {:induction false} SameVerified(before: Docket, after: Docket, ks: seq<AssignmentId>)
    requires FlagsOnly(before, after)
    ensures P.Verified(after, ks) == P.Verified(before, ks)
  {
    if ks != [] { SameVerified(before, after, ks[..|ks| - 1]); }
  }

  lemma {:induction false} SamePayments(x: P.Records, y: P.Records, p: Params, active: seq<AssignmentId>, per: nat)
    requires SameReading(x, y)
    ensures P.AllVerifierPayments(y, p, active, per) == P.AllVerifierPayments(x, p, active, per)
  {
    if active != [] {
      SamePayments(x, y, p, active[..|active| - 1], per);
      SamePayment(x, y, p, active[|active| - 1], per);
    }
  }

  lemma SamePayment(x: P.Records, y: P.Records, p: Params, k: AssignmentId, per: nat)
    requires SameReading(x, y)
    ensures P.VerifierPayments(y, p, k, per) == P.VerifierPayments(x, p, k, per)
  {
    var successful := P.Successful(x.submissions, k);
    assert P.Weights(y, successful) == P.Weights(x, successful);
  }

  lemma SameBatch(x: P.Records, y: P.Records, p: Params, r: int, pool: nat)
    requires SameReading(x, y)
    ensures P.VerifierBatch(y, p, r, pool) == P.VerifierBatch(x, p, r, pool)
  {
    assert RoundKeys(y.docket, r) == RoundKeys(x.docket, r);
    SameVerified(x.docket, y.docket, P.Keys(x, r));
    SamePayments(x, y, p, P.Active(x, r), P.Share(pool, |P.Keys(x, r)|));
  }

  /** Every successful verifier of round r has a payout entry. */
  predicate EntriesDefined(s: State, r: int)
    requires s.params.Valid() && E.SettlementPools(s.params).Some?
  {
    P.VerifierBatch(RecordsOf(s), s.params, r, E.SettlementPools(s.params).value.verifier).Ok?
  }

  /** What the emission account will hold once it is topped up. */
  function Funds(s: State): int {
    Balance(s.bank, TOKENOMICS, REWARD_DENOM) + E.Target(s.params) - s.funded
  }

  /** The account covers the pools of all rounds in rs, and every verifier in them has an entry. */
  predicate AllPayable(s: State, rs: seq<int>)
    requires s.params.Valid()
  {
    rs != [] ==>
      && E.SettlementPools(s.params).Some?
      && |rs| * E.PerRound(s.params) <= Funds(s)
      && forall r :: r in rs ==> EntriesDefined(s, r)
  }

  /** What the account holds, in terms of the rounds settled before. */
  lemma FundsAre(s: State, env: Env)
    requires Inv(s, env)
    ensures Funds(s) == E.Target(s.params) + Balance(s.log.gifts, TOKENOMICS, REWARD_DENOM)
                        - |s.log.settlements| * E.PerRound(s.params)
  {
  }

  /** One more round is payable exactly when it has its entries and the account covers one round more. */
  lemma AllPayableNext(s: State, rs: seq<int>, r: int)
    requires s.params.Valid()
    ensures AllPayable(s, rs + [r]) <==>
      && AllPayable(s, rs) && E.SettlementPools(s.params).Some? && EntriesDefined(s, r)
      && (|rs| + 1) * E.PerRound(s.params) <= Funds(s)
  {
    MulMono(|rs|, |rs| + 1, E.PerRound(s.params));
    if AllPayable(s, rs + [r]) {
      assert r in rs + [r] && forall q :: q in rs ==> q in rs + [r];
    }
  }

  lemma SettlesOrWaits(s: State, env: Env, t: State, r: int)
    requires Inv(t, env) && FlagsOnly(s.assignments, t.assignments) && r in t.unsettled
    ensures SettleRound(t, r).Ok? <==> (AllFinalized(s.assignments, r) ==> Payable(t, r))
  {
    SettleRoundIff(t, env, r);
    SameFinalized(s.assignments, t.assignments, r);
    NeverPartiallySettled(CalendarOf(t), r, t.params.roundInterval);
  }

  lemma ReadyIff(s: State, rounds: seq<int>, t: State, n: nat)
    requires s.params.Valid() && Untouched(s, t) && FlagsOnly(s.assignments, t.assignments) && n < |rounds|
    requires t.log.settlements == s.log.settlements + Ready(s.assignments, rounds, n)
    requires Funds(s) == E.Target(s.params) + Balance(s.log.gifts, TOKENOMICS, REWARD_DENOM)
                         - |s.log.settlements| * E.PerRound(s.params)
    requires AllPayable(s, Ready(s.assignments, rounds, n))
    ensures AllPayable(s, Ready(s.assignments, rounds, n + 1)) <==> (AllFinalized(s.assignments, rounds[n]) ==> Payable(t, rounds[n]))
  {
    if AllFinalized(s.assignments, rounds[n]) {
      AllPayableNext(s, Ready(s.assignments, rounds, n), rounds[n]);
      PayableThen(s, Ready(s.assignments, rounds, n), t, rounds[n]);
    }
  }

  lemma ProgressFacts(s: State, env: Env, rounds: seq<int>, t: State, n: nat)
    requires Progress(s, env, rounds, t, n) && n < |rounds|
    ensures Inv(t, env) && Untouched(s, t) && FlagsOnly(s.assignments, t.assignments) && rounds[n] in t.unsettled
    ensures t.log.settlements == s.log.settlements + Ready(s.assignments, rounds, n)
  {
  }

  /** In the state t of the pass, after n rounds, the next round settles exactly when it is payable from the start. */
  lemma NextSettlesIff(s: State, env: Env, rounds: seq<int>, t: State, n: nat)
    requires Inv(s, env) && Progress(s, env, rounds, t, n) && n < |rounds|
    requires AllPayable(s, Ready(s.assignments, rounds, n))
    ensures SettleRound(t, rounds[n]).Ok? <==> AllPayable(s, Ready(s.assignments, rounds, n + 1))
  {
    ProgressFacts(s, env, rounds, t, n);
    SettlesOrWaits(s, env, t, rounds[n]);
    FundsAre(s, env);
    ReadyIff(s, rounds, t, n);
  }

  lemma PayableThen(s: State, rs: seq<int>, t: State, r: int)
    requires s.params.Valid() && Untouched(s, t) && FlagsOnly(s.assignments, t.assignments)
    requires t.log.settlements == s.log.settlements + rs
    requires Funds(s) == E.Target(s.params) + Balance(s.log.gifts, TOKENOMICS, REWARD_DENOM)
                         - |s.log.settlements| * E.PerRound(s.params)
    ensures Payable(t, r) <==>
      E.SettlementPools(s.params).Some? && EntriesDefined(s, r) && (|rs| + 1) * E.PerRound(s.params) <= Funds(s)
  {
    Distribute(|s.log.settlements|, |rs| + 1, E.PerRound(s.params));
    if E.SettlementPools(s.params).Some? {
      SameBatch(RecordsOf(s), RecordsOf(t), s.params, r, E.SettlementPools(s.params).value.verifier);
    }
  }

  lemma ProgressAfter(s: State, env: Env, rounds: seq<int>, n: nat)
    requires Inv(s, env) && NoDup(rounds) && n <= |rounds| && forall i :: 0 <= i < |rounds| ==> rounds[i] in s.unsettled
    requires Fold(SettleRound, s, rounds, n).Ok?
    ensures Progress(s, env, rounds, Fold(SettleRound, s, rounds, n).value, n)
  {
    ProgressStart(s, env, rounds);
    ProgressCarried(s, env, rounds);
    FoldPreserves(SettleRound, s, rounds, n, ProgressInv(s, env, rounds));
  }

  lemma UnpayableStays(s: State, rounds: seq<int>, n: nat)
    requires s.params.Valid() && n < |rounds| && !AllPayable(s, Ready(s.assignments, rounds, n))
    ensures !AllPayable(s, Ready(s.assignments, rounds, n + 1))
  {
    if AllFinalized(s.assignments, rounds[n]) { AllPayableNext(s, Ready(s.assignments, rounds, n), rounds[n]); }
  }

  lemma SettlesOneMoreIff(s: State, env: Env, rounds: seq<int>, n: nat, t: State)
    requires Inv(s, env) && NoDup(rounds) && n < |rounds| && forall i :: 0 <= i < |rounds| ==> rounds[i] in s.unsettled
    requires Fold(SettleRound, s, rounds, n) == Ok(t) && AllPayable(s, Ready(s.assignments, rounds, n))
    ensures Fold(SettleRound, s, rounds, n + 1).Ok? <==> AllPayable(s, Ready(s.assignments, rounds, n + 1))
  {
    FoldNext(SettleRound, s, rounds, n, t);
    ProgressAfter(s, env, rounds, n);
    NextSettlesIff(s, env, rounds, t, n);
  }

  /** The first n rounds settle exactly when those that are ready are payable from the start. */
  ghost predicate SettlesIfPayable(s: State, rounds: seq<int>, n: nat) {
    && s.params.Valid() && n <= |rounds|
    && (Fold(SettleRound, s, rounds, n).Ok? <==> AllPayable(s, Ready(s.assignments, rounds, n)))
  }

  /** A state in order, and rounds that wait in it. */
  ghost predicate Waiting(s: State, env: Env, rounds: seq<int>) {
    Inv(s, env) && NoDup(rounds) && forall i :: 0 <= i < |rounds| ==> rounds[i] in s.unsettled
  }

  lemma SettlesIfPayableNext(s: State, env: Env, rounds: seq<int>, n: nat)
    requires Waiting(s, env, rounds) && n < |rounds| && SettlesIfPayable(s, rounds, n)
    ensures SettlesIfPayable(s, rounds, n + 1)
  {
    if Fold(SettleRound, s, rounds, n).Ok? {
      SettlesOneMoreIff(s, env, rounds, n, Fold(SettleRound, s, rounds, n).value);
    } else {
      UnpayableStays(s, rounds, n);
    }
  }

  lemma SettlesIfPayableStart(s: State, env: Env, rounds: seq<int>)
    requires Waiting(s, env, rounds)
    ensures SettlesIfPayable(s, rounds, 0)
  {
  }

  lemma {:induction false} SettlesCarried(s: State, rounds: seq<int>, n: nat)
    requires n <= |rounds| && SettlesIfPayable(s, rounds, 0)
    requires forall m: nat :: m < |rounds| && SettlesIfPayable(s, rounds, m) ==> SettlesIfPayable(s, rounds, m + 1)
    ensures SettlesIfPayable(s, rounds, n)
  {
    if n > 0 { SettlesCarried(s, rounds, n - 1); }
  }

  lemma SettlesUpToIff(s: State, env: Env, rounds: seq<int>)
    requires Waiting(s, env, rounds)
    ensures SettlesIfPayable(s, rounds, |rounds|)
  {
    SettlesIfPayableStart(s, env, rounds);
    forall m: nat | m < |rounds| && SettlesIfPayable(s, rounds, m)
      ensures SettlesIfPayable(s, rounds, m + 1)
    {
      SettlesIfPayableNext(s, env, rounds, m);
    }
    SettlesCarried(s, rounds, |rounds|);
  }

  /** The rounds that settlement pays: indexed and completely finalized. */
  function DueRounds(s: State): seq<int> {
    Ready(s.assignments, SortedInts(s.unsettled), |SortedInts(s.unsettled)|)
  }

  /**
   * Settlement succeeds if and only if the account, topped up, covers the pools of all rounds that are due and
   * every successful verifier in them has a payout entry.
   */
  lemma SettleRoundsIff(s: State, env: Env)
    requires Inv(s, env)
    ensures SettleRounds(s).Ok? <==> AllPayable(s, DueRounds(s))
  {
    var rounds := SortedInts(s.unsettled);
    EnumerationElems(rounds, s.unsettled);
    SettlesUpToIff(s, env, rounds);
  }

  lemma {:induction false} ReadyLength(docket: Docket, rounds: seq<int>, n: nat)
    requires n <= |rounds|
    ensures |Ready(docket, rounds, n)| <= n
  {
    if n > 0 { ReadyLength(docket, rounds, n - 1); }
  }

  lemma DueAreWaiting(s: State)
    ensures |DueRounds(s)| <= |s.unsettled|
  {
    EnumerationLength(SortedInts(s.unsettled), s.unsettled);
    ReadyLength(s.assignments, SortedInts(s.unsettled), |SortedInts(s.unsettled)|);
  }

  lemma RoomCovers(p: Params, n: nat, m: nat, funds: int)
    requires p.Valid() && E.Affordable(p) && n + m <= E.Room(p) && E.Target(p) - n * E.PerRound(p) <= funds
    ensures m * E.PerRound(p) <= funds
  {
    E.AffordableUpTo(p, n + m);
    Distribute(n, m, E.PerRound(p));
  }

  lemma SustainablePays(s: State, env: Env, rs: seq<int>)
    requires Inv(s, env) && Sustainable(s.params, |s.websites|) && |rs| * E.PerRound(s.params) <= Funds(s)
    ensures AllPayable(s, rs)
  {
    forall r | r in rs
      ensures EntriesDefined(s, r)
    {
      RoundDefined(s, env, r);
    }
  }

  /** While the settled and the waiting rounds fit into the emission period, a sustainable schedule pays every due round. */
  lemma SettleRoundsSucceeds(s: State, env: Env)
    requires Inv(s, env) && Sustainable(s.params, |s.websites|) && |s.log.settlements| + |s.unsettled| <= E.Room(s.params)
    ensures AllPayable(s, DueRounds(s)) && SettleRounds(s).Ok?
  {
    DueAreWaiting(s);
    FundsAre(s, env);
    RoomCovers(s.params, |s.log.settlements|, |DueRounds(s)|, Funds(s));
    SustainablePays(s, env, DueRounds(s));
    SettleRoundsIff(s, env);
  }

  // Which rounds and flags settlement changes.

  lemma {:induction false} ReadyMembers(docket: Docket, rounds: seq<int>, n: nat, r: int)
    requires n <= |rounds|
    ensures r in Ready(docket, rounds, n) <==> r in rounds[..n] && AllFinalized(docket, r)
  {
    if n > 0 {
      ReadyMembers(docket, rounds, n - 1, r);
      assert rounds[..n] == rounds[..n - 1] + [rounds[n - 1]];
    }
  }

  /** The due rounds are the indexed ones all of whose assignments are finalized. */
  lemma DueExact(s: State, r: int)
    ensures r in DueRounds(s) <==> r in s.unsettled && forall k :: k in s.assignments && k.round == r ==> s.assignments[k].finalized
  {
    var rounds := SortedInts(s.unsettled);
    FullPrefix(rounds);
    ReadyMembers(s.assignments, rounds, |rounds|, r);
  }

  /** Settlement pays the due rounds, in order, and settles exactly their assignments: no other flag changes. */
  lemma SettledFlags(s: State, env: Env, k: AssignmentId)
    requires Inv(s, env) && SettleRounds(s).Ok? && k in s.assignments
    ensures var t := SettleRounds(s).value;
      && t.log.settlements == s.log.settlements + DueRounds(s)
      && k in t.assignments
      && t.assignments[k] == s.assignments[k].(settled := s.assignments[k].settled || k.round in DueRounds(s))
  {
    var t := SettleRounds(s).value;
    SettleRoundsExact(s, env);
    SettleRoundsKeeps(s, env);
    DueExact(s, k.round);
    FlagOf(CalendarOf(s), CalendarOf(t), s.params.roundInterval, k, k.round in DueRounds(s));
  }

  lemma FlagOf(before: Calendar, after: Calendar, interval: int, k: AssignmentId, due: bool)
    requires interval > 0 && CalendarOk(before, interval) && CalendarOk(after, interval) && FlagsOnly(before.docket, after.docket)
    requires k in before.docket && (due ==> k.round in after.settlements)
    requires after.unsettled <= before.unsettled && (!due && k.round in before.unsettled ==> k.round in after.unsettled)
    ensures after.docket[k].settled <==> before.docket[k].settled || due
  {
    if due {
      var i :| 0 <= i < |after.settlements| && after.settlements[i] == k.round;
      assert PaidRound(after.docket, after.settlements[i]);
    } else if !before.docket[k].settled {
      assert OpenRound(before.docket, k.round);
      assert OpenRound(after.docket, k.round);
      var l :| l in after.docket && l.round == k.round && !after.docket[l].settled;
      assert after.docket[k].settled == after.docket[l].settled;
    }
  }
}
