// Finalizing the assignments whose deadline has passed (x/registry/verification_rounds.go, finalizeAssignments;
// verification_keeper.go, verifier penalties).
module Finalization {
  import opened Base
  import opened Folds
  import opened Bank
  import opened PublisherParams
  import opened Tally
  import opened StoreKeys
  import opened ChainState
  import opened Market
  import opened LeaseSettlement
  import opened Verdicts
  import opened Votes
  import opened Rounds
  import opened Assigning
  import opened Solvency
  import opened Invariant
  import P = Payments
  import B = Bonding
  import G = Registration

  // Verifier penalties.

  function PenaltyOf(penalties: map<string, Penalty>, v: string): Penalty {
    if v in penalties then penalties[v] else Penalty(0, 0)
  }

  /** The int32 strike count. */
  function NextCount(n: int): int {
    if n >= MAX_INT32 then -MAX_INT32 - 1 else n + 1
  }

  /** The suspension period in int64 seconds, at least a minute. */
  function SuspensionSeconds(p: Params): (d: int)
    ensures 60 <= d <= MAX_INT64
  {
    Max(60, Wrap64(p.roundInterval * p.SuspendRounds()))
  }

  /** ApplyVerifierPenalty: one more strike, and suspension from the threshold on; counter and end time wrap like Go's. */
  function Struck(x: Penalty, p: Params, now: int): Penalty {
    var until := Wrap64(now + SuspensionSeconds(p));
    Penalty(NextCount(x.count), if NextCount(x.count) >= p.SuspendThreshold() && until > x.until then until else x.until)
  }

  /** A record without strikes and without suspension is not kept. */
  function Kept(x: Penalty): Penalty {
    if x.count <= 0 && x.until <= 0 then Penalty(0, 0) else x
  }

  function SetPenalty(penalties: map<string, Penalty>, v: string, x: Penalty): map<string, Penalty> {
    if x.count <= 0 && x.until <= 0 then penalties - {v} else penalties[v := x]
  }

  /** A verifier that did not reveal, or revealed against a quorum's majority, is penalized; any other is cleared. */
  predicate AtFault(submissions: map<VoteId, Submission>, k: AssignmentId, t: Stats, v: string) {
    var id := VoteId(k.round, k.domain, v);
    id !in submissions || (HasQuorum(t) && submissions[id].passed != MajorityPass(t))
  }

  function PenaltiesAfter(penalties: map<string, Penalty>, submissions: map<VoteId, Submission>, k: AssignmentId, t: Stats,
                          verifiers: seq<string>, n: nat, p: Params, now: int): map<string, Penalty>
    requires n <= |verifiers|
  {
    if n == 0 then penalties
    else
      var before := PenaltiesAfter(penalties, submissions, k, t, verifiers, n - 1, p, now);
      var v := verifiers[n - 1];
      if AtFault(submissions, k, t, v) then SetPenalty(before, v, Struck(PenaltyOf(before, v), p, now)) else before - {v}
  }

  // One assignment.

  predicate Expired(s: State, k: AssignmentId) {
    k in s.assignments && !s.assignments[k].finalized && s.assignments[k].deadline <= s.now
  }

  function TallyFor(s: State, k: AssignmentId): Stats
    requires k in s.assignments
  {
    TallyOf(s.submissions, k, s.assignments[k])
  }

  function JudgeFor(s: State, k: AssignmentId): Result<Estate, Error>
    requires k in s.assignments
  {
    Judge(EstateOf(s), k.domain, s.assignments[k], TallyFor(s, k), s.params, s.now, s.height)
  }

  function Closed(s: State, k: AssignmentId): Calendar
    requires k in s.assignments
  {
    MarkFinalized(CalendarOf(s), k, s.now, Earned(EstateOf(s), k.domain, s.assignments[k], TallyFor(s, k)))
  }

  function PenaltiesFor(s: State, k: AssignmentId): map<string, Penalty>
    requires k in s.assignments
  {
    var a := s.assignments[k];
    PenaltiesAfter(s.penalties, s.submissions, k, TallyFor(s, k), a.verifiers, |a.verifiers|, s.params, s.now)
  }

  function FinalizeOne(s: State, k: AssignmentId): Result<State, Error> {
    if !Expired(s, k) then Ok(s)
    else
      match JudgeFor(s, k)
      case Err(x) => Err(x)
      case Ok(e) =>
        if !Storable(k, s.assignments[k]) then Err(Invalid)
        else
          Ok(WithEstate(s, e).(penalties := PenaltiesFor(s, k),
                               assignments := Closed(s, k).docket,
                               unsettled := Closed(s, k).unsettled,
                               log := s.log.(tallies := s.log.tallies[k := TallyFor(s, k)])))
  }

  function FinalizeAssignments(s: State): Result<State, Error> {
    var ks := SortedAssignments(s.assignments.Keys);
    Fold(FinalizeOne, s, ks, |ks|)
  }

  // Finalization keeps every part of the invariant.

  /** What one finalization leaves alone. */
  predicate Untouched(s: State, t: State) {
    && t.now == s.now && t.height == s.height && t.params == s.params && t.bondParams == s.bondParams
    && t.primary == s.primary && t.slotSeq == s.slotSeq && t.leaseSeq == s.leaseSeq
    && t.lastRound == s.lastRound && t.metas == s.metas && t.beacons == s.beacons
    && t.commits == s.commits && t.submissions == s.submissions && t.bonds == s.bonds && t.funded == s.funded
    && t.log == s.log.(tallies := t.log.tallies)
  }

  lemma FinalizeOneUntouched(s: State, k: AssignmentId)
    requires FinalizeOne(s, k).Ok?
    ensures Untouched(s, FinalizeOne(s, k).value)
  {
  }

  lemma FinalizeMarket(s: State, k: AssignmentId)
    requires MarketPart(s) && FinalizeOne(s, k).Ok?
    ensures MarketPart(FinalizeOne(s, k).value)
    ensures SameElsewhere(s.bank, FinalizeOne(s, k).value.bank, REGISTRY)
  {
    if Expired(s, k) {
      JudgeKeeps(EstateOf(s), k.domain, s.assignments[k], TallyFor(s, k), s.params, s.now, s.height,
                 s.slotSeq, s.leaseSeq, s.log.gifts);
      assert EstateOf(FinalizeOne(s, k).value) == JudgeFor(s, k).value;
    }
  }

  lemma JudgeKeepsKeys(e: Estate, d: string, a: Assignment, t: Stats, p: Params, now: int, height: int)
    requires Judge(e, d, a, t, p, now, height).Ok?
    ensures Judge(e, d, a, t, p, now, height).value.websites.Keys == e.websites.Keys
  {
  }

  lemma FinalizeStatus(s: State, k: AssignmentId)
    requires ClockOk(s) && SitesOk(s.websites, s.streaks, s.params) && FinalizeOne(s, k).Ok?
    ensures SitesOk(FinalizeOne(s, k).value.websites, FinalizeOne(s, k).value.streaks, s.params)
  {
    if Expired(s, k) {
      JudgeKeepsSites(EstateOf(s), k.domain, s.assignments[k], TallyFor(s, k), s.params, s.now, s.height);
    }
  }

  lemma FinalizeKeys(s: State, k: AssignmentId)
    requires FinalizeOne(s, k).Ok?
    ensures FinalizeOne(s, k).value.websites.Keys == s.websites.Keys
  {
    if Expired(s, k) {
      JudgeKeepsKeys(EstateOf(s), k.domain, s.assignments[k], TallyFor(s, k), s.params, s.now, s.height);
    }
  }

  lemma SameIndex(r: G.Sites, t: G.Sites, env: Env)
    requires G.IndexOk(r, env) && t.websites.Keys == r.websites.Keys && t.primary == r.primary
    ensures G.IndexOk(t, env)
  {
  }

  lemma FinalizeRounds(s: State, k: AssignmentId)
    requires s.params.Valid() && PlanOk(PlanOf(s), s.beacons, s.params) && FinalizeOne(s, k).Ok?
    ensures PlanOk(PlanOf(FinalizeOne(s, k).value), s.beacons, s.params)
    ensures DutiesKept(s.assignments, FinalizeOne(s, k).value.assignments)
    ensures FinalizeOne(s, k).value.assignments.Keys == s.assignments.Keys
  {
    if Expired(s, k) {
      MarkFinalizedKeeps(CalendarOf(s), k, s.now, Earned(EstateOf(s), k.domain, s.assignments[k], TallyFor(s, k)),
                         s.params.roundInterval);
      FinalizedDuties(s.assignments, k, Closed(s, k).docket[k], s.params);
      FinalizedPlan(s, k, FinalizeOne(s, k).value);
    }
  }

  lemma FinalizedPlan(s: State, k: AssignmentId, t: State)
    requires Expired(s, k) && FinalizeOne(s, k) == Ok(t)
    ensures CalendarOf(t) == Closed(s, k) && t.metas == s.metas
    ensures Closed(s, k).docket == s.assignments[k := Closed(s, k).docket[k]]
  {
  }

  lemma FinalizedDuties(docket: Docket, k: AssignmentId, a: Assignment, p: Params)
    requires DutiesOk(docket, p) && k in docket && SameDuty(docket[k], a) && a.reregistration == docket[k].reregistration
    ensures DutiesOk(docket[k := a], p)
  {
    assert DutyOk(k, docket[k], p);
  }

  lemma FinalizeTallies(s: State, k: AssignmentId)
    requires TallyOk(s.assignments, s.submissions, s.log.tallies) && FinalizeOne(s, k).Ok?
    ensures TallyOk(FinalizeOne(s, k).value.assignments, s.submissions, FinalizeOne(s, k).value.log.tallies)
  {
  }

  lemma FinalizeOneKeeps(s: State, env: Env, k: AssignmentId)
    requires Inv(s, env) && FinalizeOne(s, k).Ok?
    ensures Inv(FinalizeOne(s, k).value, env)
  {
    FinalizeOneUntouched(s, k);
    FinalizeMarket(s, k);
    FinalizeStatus(s, k);
    FinalizeKeys(s, k);
    FinalizeRounds(s, k);
    FinalizeTallies(s, k);
    var t := FinalizeOne(s, k).value;
    SameIndex(SitesOf(s), SitesOf(t), env);
    VotesOkFrame(BallotsOf(s), s.assignments, t.assignments, s.params, env);
    BondFrame(BondsOf(s), t.bank, s.bondParams, s.log.gifts, REGISTRY);
    PoolFrame(TreasuryOf(s), t.bank, |s.log.settlements|, s.params, s.log.gifts, REGISTRY);
  }

  // The whole pass.

  lemma FinalizeKeeps(s: State, env: Env)
    requires Inv(s, env) && FinalizeAssignments(s).Ok?
    ensures Inv(FinalizeAssignments(s).value, env)
  {
    var ks := SortedAssignments(s.assignments.Keys);
    var inv := (t: State, n: nat) => Inv(t, env);
    forall t, i: nat | i < |ks| && inv(t, i) && FinalizeOne(t, ks[i]).Ok?
      ensures inv(FinalizeOne(t, ks[i]).value, i + 1)
    {
      FinalizeOneKeeps(t, env, ks[i]);
    }
    FoldPreserves(FinalizeOne, s, ks, |ks|, inv);
  }

  // When finalization fails.

  /** Judging k starts a first cooldown whose end does not fit an int64. */
  predicate Overflows(s: State, k: AssignmentId) {
    && Expired(s, k) && StartsCooldown(EstateOf(s), k.domain, s.assignments[k], TallyFor(s, k), s.now)
    && s.websites[k.domain].cooldownCount == 0 && s.now + s.params.cooldownBase > MAX_INT64
  }

  lemma VerdictIff(s: State, k: AssignmentId)
    requires ClockOk(s) && MarketPart(s) && SitesOk(s.websites, s.streaks, s.params)
    requires k in s.assignments && Storable(k, s.assignments[k])
    ensures FinalizeOne(s, k).Ok? <==> !Overflows(s, k)
  {
    JudgeFailsIff(EstateOf(s), k.domain, s.assignments[k], TallyFor(s, k), s.params, s.now, s.height,
                  s.slotSeq, s.leaseSeq, s.log.gifts);
  }

  lemma FinalizeOneIff(s: State, env: Env, k: AssignmentId)
    requires Inv(s, env)
    ensures FinalizeOne(s, k).Ok? <==> !Overflows(s, k)
  {
    if k in s.assignments {
      assert DutyOk(k, s.assignments[k], s.params);
      VerdictIff(s, k);
    }
  }

  /** The state in which the pass comes to its i-th assignment, unless it failed before. */
  function AtTurn(s: State, i: nat): Result<State, Error>
    requires i <= |SortedAssignments(s.assignments.Keys)|
  {
    Fold(FinalizeOne, s, SortedAssignments(s.assignments.Keys), i)
  }

  lemma TurnKeeps(s: State, env: Env, i: nat)
    requires Inv(s, env) && i <= |SortedAssignments(s.assignments.Keys)| && AtTurn(s, i).Ok?
    ensures Inv(AtTurn(s, i).value, env)
  {
    var ks := SortedAssignments(s.assignments.Keys);
    var inv := (t: State, n: nat) => Inv(t, env);
    forall t, i: nat | i < |ks| && inv(t, i) && FinalizeOne(t, ks[i]).Ok?
      ensures inv(FinalizeOne(t, ks[i]).value, i + 1)
    {
      FinalizeOneKeeps(t, env, ks[i]);
    }
    FoldPreserves(FinalizeOne, s, ks, i, inv);
  }

  /** No assignment starts, at its turn, a first cooldown that does not fit. */
  ghost predicate CooldownsFit(s: State) {
    var ks := SortedAssignments(s.assignments.Keys);
    forall i: nat :: i < |ks| && AtTurn(s, i).Ok? ==> !Overflows(AtTurn(s, i).value, ks[i])
  }

  lemma TurnIff(s: State, env: Env, i: nat)
    requires Inv(s, env) && i < |SortedAssignments(s.assignments.Keys)| && AtTurn(s, i).Ok?
    ensures var k := SortedAssignments(s.assignments.Keys)[i];
      FinalizeOne(AtTurn(s, i).value, k).Ok? <==> !Overflows(AtTurn(s, i).value, k)
  {
    TurnKeeps(s, env, i);
    FinalizeOneIff(AtTurn(s, i).value, env, SortedAssignments(s.assignments.Keys)[i]);
  }

  lemma PassIff(s: State)
    ensures var ks := SortedAssignments(s.assignments.Keys);
      FinalizeAssignments(s).Ok? <==> forall i: nat :: i < |ks| && AtTurn(s, i).Ok? ==> FinalizeOne(AtTurn(s, i).value, ks[i]).Ok?
  {
    var ks := SortedAssignments(s.assignments.Keys);
    FoldOkIff(FinalizeOne, s, ks, |ks|);
  }

  lemma BaseFits(s: State)
    requires s.now + s.params.cooldownBase <= MAX_INT64
    ensures CooldownsFit(s)
  {
    forall i: nat | i < |SortedAssignments(s.assignments.Keys)| && AtTurn(s, i).Ok?
      ensures AtTurn(s, i).value.now == s.now && AtTurn(s, i).value.params == s.params
    {
      TurnFrame(s, i);
    }
  }

  /**
   * Finalization succeeds if and only if every first cooldown that it starts fits an int64, as all do while the clock
   * and the base together fit: no other error can occur.
   */
  lemma FinalizeIff(s: State, env: Env)
    requires Inv(s, env)
    ensures FinalizeAssignments(s).Ok? <==> CooldownsFit(s)
    ensures s.now + s.params.cooldownBase <= MAX_INT64 ==> CooldownsFit(s)
  {
    PassIff(s);
    forall i: nat | i < |SortedAssignments(s.assignments.Keys)| && AtTurn(s, i).Ok?
      ensures var k := SortedAssignments(s.assignments.Keys)[i];
        FinalizeOne(AtTurn(s, i).value, k).Ok? <==> !Overflows(AtTurn(s, i).value, k)
    {
      TurnIff(s, env, i);
    }
    if s.now + s.params.cooldownBase <= MAX_INT64 { BaseFits(s); }
  }

  lemma {:induction false} TurnFrame(s: State, i: nat)
    requires i <= |SortedAssignments(s.assignments.Keys)| && AtTurn(s, i).Ok?
    ensures Untouched(s, AtTurn(s, i).value)
  {
    if i > 0 {
      TurnFrame(s, i - 1);
      FinalizeOneUntouched(AtTurn(s, i - 1).value, SortedAssignments(s.assignments.Keys)[i - 1]);
    }
  }

  /** No website has two expired assignments. */
  ghost predicate OneEach(s: State) {
    forall k, l :: Expired(s, k) && Expired(s, l) && k.domain == l.domain ==> k == l
  }

  /** Finalizing one assignment leaves another one, of another website, as exposed as it was. */
  lemma OverflowsElsewhere(s: State, k: AssignmentId, l: AssignmentId)
    requires MarketPart(s) && FinalizeOne(s, k).Ok? && k != l
    ensures Expired(FinalizeOne(s, k).value, l) <==> Expired(s, l)
    ensures l.domain != k.domain || !Expired(s, k) || !Expired(s, l) ==> (Overflows(FinalizeOne(s, k).value, l) <==> Overflows(s, l))
  {
    if Expired(s, k) && l.domain != k.domain {
      JudgeElsewhere(EstateOf(s), k.domain, s.assignments[k], TallyFor(s, k), s.params, s.now, s.height, l.domain,
                     s.slotSeq, s.leaseSeq, s.log.gifts);
      assert EstateOf(FinalizeOne(s, k).value) == JudgeFor(s, k).value;
    }
  }

  /** What the pass has still to visit looks as it did at the start. */
  ghost predicate SameAhead(s: State, t: State, ks: seq<AssignmentId>, i: nat) {
    forall j :: i <= j < |ks| ==> (Expired(t, ks[j]) <==> Expired(s, ks[j])) && (Overflows(t, ks[j]) <==> Overflows(s, ks[j]))
  }

  lemma AheadStep(s: State, t: State, ks: seq<AssignmentId>, i: nat)
    requires OneEach(s) && NoDup(ks) && i < |ks| && SameAhead(s, t, ks, i) && MarketPart(t) && FinalizeOne(t, ks[i]).Ok?
    ensures SameAhead(s, FinalizeOne(t, ks[i]).value, ks, i + 1)
  {
    forall j | i + 1 <= j < |ks|
      ensures Expired(FinalizeOne(t, ks[i]).value, ks[j]) <==> Expired(s, ks[j])
      ensures Overflows(FinalizeOne(t, ks[i]).value, ks[j]) <==> Overflows(s, ks[j])
    {
      OverflowsElsewhere(t, ks[i], ks[j]);
    }
  }

  /** The market is in order and everything ahead looks as it did at the start. */
  ghost predicate Ahead(s: State, t: State, ks: seq<AssignmentId>, i: nat) {
    MarketPart(t) && SameAhead(s, t, ks, i)
  }

  lemma AheadAtTurn(s: State, i: nat)
    requires MarketPart(s) && OneEach(s) && i <= |SortedAssignments(s.assignments.Keys)| && AtTurn(s, i).Ok?
    ensures SameAhead(s, AtTurn(s, i).value, SortedAssignments(s.assignments.Keys), i)
  {
    var ks := SortedAssignments(s.assignments.Keys);
    var inv := (t: State, n: nat) => Ahead(s, t, ks, n);
    forall t, n: nat | n < |ks| && inv(t, n) && FinalizeOne(t, ks[n]).Ok?
      ensures inv(FinalizeOne(t, ks[n]).value, n + 1)
    {
      AheadStep(s, t, ks, n);
      FinalizeMarket(t, ks[n]);
    }
    FoldPreserves(FinalizeOne, s, ks, i, inv);
  }

  lemma SameAtTurn(s: State, i: nat)
    requires MarketPart(s) && OneEach(s) && i < |SortedAssignments(s.assignments.Keys)| && AtTurn(s, i).Ok?
    ensures var k := SortedAssignments(s.assignments.Keys)[i];
      Overflows(AtTurn(s, i).value, k) <==> Overflows(s, k)
  {
    AheadAtTurn(s, i);
  }

  /** While no website has two expired assignments, finalization fails if and only if one of them overflows as it stands. */
  lemma FinalizeFailsIff(s: State, env: Env)
    requires Inv(s, env) && OneEach(s)
    ensures FinalizeAssignments(s).Err? <==> exists k :: Overflows(s, k)
  {
    FinalizeIff(s, env);
    FitsUnlessOverflows(s);
  }

  lemma FitsUnlessOverflows(s: State)
    requires MarketPart(s) && OneEach(s)
    ensures FinalizeAssignments(s).Ok? && CooldownsFit(s) ==> forall k :: !Overflows(s, k)
    ensures (forall k :: !Overflows(s, k)) ==> CooldownsFit(s)
  {
    if k :| Overflows(s, k) {
      if FinalizeAssignments(s).Ok? { OverflowReached(s, k); }
    } else {
      NoneOverflows(s);
    }
  }

  lemma NoneOverflows(s: State)
    requires MarketPart(s) && OneEach(s) && forall k :: !Overflows(s, k)
    ensures CooldownsFit(s)
  {
    forall i: nat | i < |SortedAssignments(s.assignments.Keys)| && AtTurn(s, i).Ok?
      ensures !Overflows(AtTurn(s, i).value, SortedAssignments(s.assignments.Keys)[i])
    {
      SameAtTurn(s, i);
    }
  }

  lemma OverflowReached(s: State, k: AssignmentId)
    requires MarketPart(s) && OneEach(s) && FinalizeAssignments(s).Ok? && Overflows(s, k)
    ensures !CooldownsFit(s)
  {
    var ks := SortedAssignments(s.assignments.Keys);
    assert k in ks;
    var i: nat :| i < |ks| && ks[i] == k;
    TurnReached(s, i);
    SameAtTurn(s, i);
  }

  lemma TurnReached(s: State, i: nat)
    requires FinalizeAssignments(s).Ok? && i <= |SortedAssignments(s.assignments.Keys)|
    ensures AtTurn(s, i).Ok?
  {
    var ks := SortedAssignments(s.assignments.Keys);
    if AtTurn(s, i).Err? { FoldStaysErr(FinalizeOne, s, ks, i, |ks|); }
  }

  // What a pass of finalizations changes.

  /** Assignment k was finalized between s and t, with its tally on record. */
  predicate ClosedBetween(s: State, t: State, k: AssignmentId) {
    && k in s.assignments && k in t.assignments && k in t.log.tallies
    && !s.assignments[k].finalized && t.assignments[k].finalized
  }

  /** The vote that put the owner of d in place. */
  ghost predicate WonBy(s: State, t: State, d: string, k: AssignmentId)
    requires d in t.websites
  {
    && k.domain == d && ClosedBetween(s, t, k)
    && t.assignments[k].reregistration && MajorityPass(t.log.tallies[k]) && t.assignments[k].owner == t.websites[d].owner
  }

  ghost predicate OwnerJustified(s: State, t: State, d: string)
    requires d in s.websites && d in t.websites
  {
    t.websites[d].owner == s.websites[d].owner || exists k :: WonBy(s, t, d, k)
  }

  /** An assignment changes only by being finalized, which freezes its tally. */
  predicate DocketStep(s: State, t: State, k: AssignmentId)
    requires k in s.assignments
  {
    && k in t.assignments
    && SameDuty(s.assignments[k], t.assignments[k]) && t.assignments[k].reregistration == s.assignments[k].reregistration
    && t.assignments[k].settled == s.assignments[k].settled
    && (s.assignments[k].finalized ==> t.assignments[k] == s.assignments[k]
                                       && (k in s.log.tallies ==> k in t.log.tallies && t.log.tallies[k] == s.log.tallies[k]))
  }

  ghost predicate Finalizing(s: State, t: State) {
    && Untouched(s, t)
    && t.assignments.Keys == s.assignments.Keys
    && (forall k :: k in s.assignments ==> DocketStep(s, t, k))
    && t.websites.Keys == s.websites.Keys
    && (forall d :: d in s.websites ==> OwnerJustified(s, t, d))
  }

  lemma FinalizeDocket(s: State, k: AssignmentId)
    requires FinalizeOne(s, k).Ok?
    ensures FinalizeOne(s, k).value.assignments.Keys == s.assignments.Keys
    ensures forall l :: l in s.assignments ==> DocketStep(s, FinalizeOne(s, k).value, l)
    ensures !Expired(FinalizeOne(s, k).value, k)
  {
    if Expired(s, k) {
      ClosedDocket(s, k, FinalizeOne(s, k).value);
    }
  }

  lemma ClosedDocket(s: State, k: AssignmentId, t: State)
    requires Expired(s, k) && t.assignments == Closed(s, k).docket && t.log.tallies == s.log.tallies[k := TallyFor(s, k)]
    ensures t.assignments.Keys == s.assignments.Keys && t.assignments[k].finalized
    ensures forall l :: l in s.assignments ==> DocketStep(s, t, l)
  {
  }

  lemma FinalizeOwner(s: State, k: AssignmentId, d: string)
    requires FinalizeOne(s, k).Ok? && d in s.websites && d in FinalizeOne(s, k).value.websites
    ensures FinalizeOne(s, k).value.websites[d].owner == s.websites[d].owner || WonBy(s, FinalizeOne(s, k).value, d, k)
  {
    if Expired(s, k) {
      OwnerChangesByVote(EstateOf(s), k.domain, s.assignments[k], TallyFor(s, k), s.params, s.now, s.height, d);
    }
  }

  lemma DocketTrans(s: State, t: State, u: State, k: AssignmentId)
    requires k in s.assignments && DocketStep(s, t, k) && DocketStep(t, u, k)
    ensures DocketStep(s, u, k)
  {
  }

  /** A vote won earlier stays won while the owner does not change. */
  lemma StillWon(s: State, t: State, u: State, d: string, k: AssignmentId)
    requires d in t.websites && d in u.websites && WonBy(s, t, d, k) && DocketStep(t, u, k)
    requires u.websites[d].owner == t.websites[d].owner
    ensures WonBy(s, u, d, k)
  {
  }

  /** A vote won now was open before. */
  lemma NewlyWon(s: State, t: State, u: State, d: string, k: AssignmentId)
    requires d in t.websites && d in u.websites && WonBy(t, u, d, k) && k in s.assignments && DocketStep(s, t, k)
    ensures WonBy(s, u, d, k)
  {
  }

  lemma FinalizingStep(s: State, t: State, k: AssignmentId)
    requires Finalizing(s, t) && FinalizeOne(t, k).Ok?
    ensures Finalizing(s, FinalizeOne(t, k).value)
  {
    var u := FinalizeOne(t, k).value;
    FinalizeOneUntouched(t, k);
    FinalizeDocket(t, k);
    FinalizeKeys(t, k);
    forall l | l in s.assignments
      ensures DocketStep(s, u, l)
    {
      DocketTrans(s, t, u, l);
    }
    forall d | d in s.websites
      ensures OwnerJustified(s, u, d)
    {
      FinalizeOwner(t, k, d);
      JustifiedTrans(s, t, u, d, k);
    }
  }

  lemma JustifiedTrans(s: State, t: State, u: State, d: string, k: AssignmentId)
    requires d in s.websites && d in t.websites && d in u.websites && OwnerJustified(s, t, d)
    requires t.assignments.Keys == s.assignments.Keys
    requires forall l :: l in s.assignments ==> DocketStep(s, t, l) && DocketStep(t, u, l)
    requires u.websites[d].owner == t.websites[d].owner || WonBy(t, u, d, k)
    ensures OwnerJustified(s, u, d)
  {
    if u.websites[d].owner != t.websites[d].owner {
      NewlyWon(s, t, u, d, k);
    } else if t.websites[d].owner != s.websites[d].owner {
      var l :| WonBy(s, t, d, l);
      StillWon(s, t, u, d, l);
    }
  }

  /**
   * After the pass every assignment is as before or newly finalized with a frozen tally, and every owner is
   * the old one or the candidate of a re-registration that just won its vote.
   */
  lemma FinalizeChanges(s: State)
    requires FinalizeAssignments(s).Ok?
    ensures Finalizing(s, FinalizeAssignments(s).value)
  {
    var ks := SortedAssignments(s.assignments.Keys);
    var inv := (t: State, n: nat) => Finalizing(s, t);
    forall t, i: nat | i < |ks| && inv(t, i) && FinalizeOne(t, ks[i]).Ok?
      ensures inv(FinalizeOne(t, ks[i]).value, i + 1)
    {
      FinalizingStep(s, t, ks[i]);
    }
    FoldPreserves(FinalizeOne, s, ks, |ks|, inv);
  }

  ghost predicate NoneExpired(s: State, ks: seq<AssignmentId>, n: nat) {
    n <= |ks| && forall i :: 0 <= i < n ==> !Expired(s, ks[i])
  }

  /** After the pass no assignment is overdue. */
  lemma FinalizeCompletes(s: State, k: AssignmentId)
    requires FinalizeAssignments(s).Ok?
    ensures !Expired(FinalizeAssignments(s).value, k)
  {
    var ks := SortedAssignments(s.assignments.Keys);
    var inv := (t: State, n: nat) => NoneExpired(t, ks, n);
    forall t, i: nat | i < |ks| && inv(t, i) && FinalizeOne(t, ks[i]).Ok?
      ensures inv(FinalizeOne(t, ks[i]).value, i + 1)
    {
      FinalizeOneUntouched(t, ks[i]);
      FinalizeDocket(t, ks[i]);
      StillClosed(t, FinalizeOne(t, ks[i]).value, ks, i);
    }
    FoldPreserves(FinalizeOne, s, ks, |ks|, inv);
    FinalizeChanges(s);
    assert k in s.assignments ==> k in ks;
  }

  lemma StillClosed(t: State, u: State, ks: seq<AssignmentId>, n: nat)
    requires n <= |ks| && u.now == t.now && u.assignments.Keys == t.assignments.Keys
    requires forall k :: k in t.assignments ==> DocketStep(t, u, k)
    requires forall i :: 0 <= i < n ==> !Expired(t, ks[i])
    ensures forall i :: 0 <= i < n ==> !Expired(u, ks[i])
  {
  }

  // What the penalties mean.

  lemma {:induction false} OthersUnpunished(penalties: map<string, Penalty>, submissions: map<VoteId, Submission>, k: AssignmentId,
                                            t: Stats, verifiers: seq<string>, n: nat, p: Params, now: int, v: string)
    requires n <= |verifiers| && v !in verifiers[..n]
    ensures PenaltyOf(PenaltiesAfter(penalties, submissions, k, t, verifiers, n, p, now), v) == PenaltyOf(penalties, v)
  {
    if n > 0 {
      assert verifiers[..n] == verifiers[..n - 1] + [verifiers[n - 1]];
      OthersUnpunished(penalties, submissions, k, t, verifiers, n - 1, p, now, v);
    }
  }

  /** Every panel member is struck once if at fault and cleared otherwise, whatever its position on the panel. */
  lemma {:induction false} PenaltiesExact(penalties: map<string, Penalty>, submissions: map<VoteId, Submission>, k: AssignmentId,
                                          t: Stats, verifiers: seq<string>, n: nat, p: Params, now: int, i: nat)
    requires i < n <= |verifiers| && NoDup(verifiers)
    ensures PenaltyOf(PenaltiesAfter(penalties, submissions, k, t, verifiers, n, p, now), verifiers[i])
         == if AtFault(submissions, k, t, verifiers[i]) then Kept(Struck(PenaltyOf(penalties, verifiers[i]), p, now)) else Penalty(0, 0)
  {
    if i == n - 1 {
      OthersUnpunished(penalties, submissions, k, t, verifiers, n - 1, p, now, verifiers[i]);
    } else {
      PenaltiesExact(penalties, submissions, k, t, verifiers, n - 1, p, now, i);
    }
  }

  /** A strike never shortens a suspension, and below the threshold it leaves it alone. */
  lemma StrikeNeverShortens(x: Penalty, p: Params, now: int)
    ensures Struck(x, p, now).until >= x.until
    ensures Struck(x, p, now).until != x.until ==> NextCount(x.count) >= p.SuspendThreshold()
  {
  }

  /**
   * From the threshold on, a strike keeps a verifier that was not suspended off the panels for the whole
   * suspension period if and only if the end of the period fits an int64; otherwise not at all.
   */
  lemma StrikesSuspendIff(x: Penalty, p: Params, now: int, c: Scene, v: string)
    requires NextCount(x.count) >= p.SuspendThreshold() && x.until <= now && 0 <= now <= MAX_INT64
    requires v in c.penalties && c.penalties[v] == Struck(x, p, now)
    requires now <= c.now < now + SuspensionSeconds(p)
    ensures Suspended(c.penalties, v, c.now) <==> now + SuspensionSeconds(p) <= MAX_INT64
    ensures now + SuspensionSeconds(p) <= MAX_INT64 ==> v !in Eligible(c)
  {
  }

  // What finalizing one assignment does, in votes.

  /** At least half of the panel revealed. */
  predicate QuorumOf(s: State, k: AssignmentId)
    requires k in s.assignments
  {
    0 < |s.assignments[k].verifiers| <= 2 * |Voters(s.submissions, k)|
  }

  /** More than half of the reveals are passes. */
  predicate MostPassed(s: State, k: AssignmentId) {
    |Voters(s.submissions, k)| < 2 * |PassingVoters(s.submissions, k)|
  }

  /** The candidate of a re-registration is still the pending one. */
  predicate Current(s: State, k: AssignmentId)
    requires k in s.assignments
  {
    s.assignments[k].reregistration && k.domain in s.websites ==>
      s.assignments[k].owner != "" && s.websites[k.domain].pendingOwner == s.assignments[k].owner
  }

  lemma EarnedMeaning(s: State, k: AssignmentId)
    requires k in s.assignments
    ensures Earned(EstateOf(s), k.domain, s.assignments[k], TallyFor(s, k)) <==> QuorumOf(s, k) && MostPassed(s, k) && Current(s, k)
  {
    TallyMeaning(s.submissions, k, s.assignments[k]);
  }

  lemma FinalizedParts(s: State, k: AssignmentId)
    requires FinalizeOne(s, k).Ok? && Expired(s, k)
    ensures var t := FinalizeOne(s, k).value;
      && t.assignments == Closed(s, k).docket && t.penalties == PenaltiesFor(s, k) && t.submissions == s.submissions
  {
  }

  /**
   * An assignment is closed exactly when its deadline has come. It counts as verified when a quorum revealed, most of the
   * reveals are passes and, for a re-registration, its candidate is still the pending one.
   */
  lemma ClosedExact(s: State, k: AssignmentId)
    requires FinalizeOne(s, k).Ok? && k in s.assignments
    ensures var a, t := s.assignments[k], FinalizeOne(s, k).value;
      if a.finalized || s.now < a.deadline then t == s
      else
        t.assignments == s.assignments[k := a.(finalized := true, finalizedAt := s.now,
                                               verified := QuorumOf(s, k) && MostPassed(s, k) && Current(s, k))]
  {
    if Expired(s, k) {
      EarnedMeaning(s, k);
      FinalizedParts(s, k);
    }
  }

  /** One more strike: the int32 count goes up, and from the threshold on the suspension is extended, never shortened. */
  function Strike(x: Penalty, p: Params, now: int): Penalty {
    var count := if x.count >= 0x7fff_ffff then -0x8000_0000 else x.count + 1;
    var until := Wrap64(now + Max(60, Wrap64(p.roundInterval * p.SuspendRounds())));
    var y := Penalty(count, if count < p.SuspendThreshold() then x.until else Max(x.until, until));
    if y.count <= 0 && y.until <= 0 then Penalty(0, 0) else y
  }

  lemma StrikeIs(x: Penalty, p: Params, now: int)
    ensures Kept(Struck(x, p, now)) == Strike(x, p, now)
  {
  }

  /** v did not reveal, or revealed against a quorum. */
  predicate Faulty(s: State, k: AssignmentId, v: string)
    requires k in s.assignments
  {
    var vote := VoteId(k.round, k.domain, v);
    vote in s.submissions ==> QuorumOf(s, k) && s.submissions[vote].passed != MostPassed(s, k)
  }

  lemma FaultMeaning(s: State, k: AssignmentId, v: string)
    requires k in s.assignments
    ensures AtFault(s.submissions, k, TallyFor(s, k), v) <==> Faulty(s, k, v)
  {
    TallyMeaning(s.submissions, k, s.assignments[k]);
  }

  lemma PanelPenalties(s: State, k: AssignmentId, v: string)
    requires k in s.assignments && NoDup(s.assignments[k].verifiers)
    ensures PenaltyOf(PenaltiesFor(s, k), v)
         == if v !in s.assignments[k].verifiers then PenaltyOf(s.penalties, v)
            else if Faulty(s, k, v) then Strike(PenaltyOf(s.penalties, v), s.params, s.now) else Penalty(0, 0)
  {
    var panel, t := s.assignments[k].verifiers, TallyFor(s, k);
    FaultMeaning(s, k, v);
    StrikeIs(PenaltyOf(s.penalties, v), s.params, s.now);
    if v in panel {
      var i :| 0 <= i < |panel| && panel[i] == v;
      PenaltiesExact(s.penalties, s.submissions, k, t, panel, |panel|, s.params, s.now, i);
    } else {
      OthersUnpunished(s.penalties, s.submissions, k, t, panel, |panel|, s.params, s.now, v);
    }
  }

  /**
   * A panel member that did not reveal, or that revealed against a quorum, gets one more strike; any other member's
   * record is cleared, and nobody off the panel is touched.
   */
  lemma PanelJudged(s: State, k: AssignmentId, v: string)
    requires k in s.assignments && !s.assignments[k].finalized && s.assignments[k].deadline <= s.now
    requires NoDup(s.assignments[k].verifiers) && FinalizeOne(s, k).Ok?
    ensures PenaltyOf(FinalizeOne(s, k).value.penalties, v)
         == if v !in s.assignments[k].verifiers then PenaltyOf(s.penalties, v)
            else if Faulty(s, k, v) then Strike(PenaltyOf(s.penalties, v), s.params, s.now) else Penalty(0, 0)
  {
    FinalizedParts(s, k);
    PanelPenalties(s, k, v);
  }

  lemma DecidedMeaning(s: State, k: AssignmentId)
    requires k in s.assignments
    ensures Decided(TallyFor(s, k)) <==> QuorumOf(s, k)
    ensures TallyFor(s, k).fails < TallyFor(s, k).passes <==> MostPassed(s, k)
  {
    TallyMeaning(s.submissions, k, s.assignments[k]);
  }

  lemma FinalizedEstate(s: State, k: AssignmentId)
    requires FinalizeOne(s, k).Ok? && Expired(s, k)
    ensures JudgeFor(s, k).Ok? && EstateOf(FinalizeOne(s, k).value) == JudgeFor(s, k).value
  {
  }

  /**
   * What the votes of a regular check do to its website: without a quorum nothing; when most reveals passed it is verified,
   * out of cooldown and without failures; otherwise a verified website becomes pending, or revoked under a threshold of 1.
   */
  lemma VerdictByVotes(s: State, env: Env, k: AssignmentId)
    requires Inv(s, env) && Expired(s, k) && FinalizeOne(s, k).Ok? && !s.assignments[k].reregistration && k.domain in s.websites
    ensures var t, d := FinalizeOne(s, k).value, k.domain;
      && d in t.websites && t.websites[d].owner == s.websites[d].owner
      && (!QuorumOf(s, k) ==> EstateOf(t) == EstateOf(s))
      && (QuorumOf(s, k) && MostPassed(s, k) ==>
            t.websites[d].status == Verified && t.websites[d].cooldownUntil == 0 && t.websites[d].cooldownCount == 0 && d !in t.streaks)
      && (QuorumOf(s, k) && !MostPassed(s, k) ==> t.websites[d].status == StatusAfterFailure(s.websites[d].status, s.params))
  {
    DecidedMeaning(s, k);
    FinalizedEstate(s, k);
    RegularVerdict(s, k, TallyFor(s, k));
  }

  lemma RegularVerdict(s: State, k: AssignmentId, t: Stats)
    requires ClockOk(s) && MarketPart(s) && SitesOk(s.websites, s.streaks, s.params)
    requires k in s.assignments && t == TallyFor(s, k) && !s.assignments[k].reregistration && k.domain in s.websites && JudgeFor(s, k).Ok?
    ensures var f, d := JudgeFor(s, k).value, k.domain;
      && d in f.websites && f.websites[d].owner == s.websites[d].owner
      && (!Decided(t) ==> f == EstateOf(s))
      && (Decided(t) && t.fails < t.passes ==>
            f.websites[d].status == Verified && f.websites[d].cooldownUntil == 0 && f.websites[d].cooldownCount == 0 && d !in f.streaks)
      && (Decided(t) && t.passes <= t.fails ==> f.websites[d].status == StatusAfterFailure(s.websites[d].status, s.params))
  {
    var e, d, a := EstateOf(s), k.domain, s.assignments[k];
    if !Decided(t) {
      NothingDecided(e, d, a, t, s.params, s.now, s.height);
    } else if t.fails < t.passes {
      PassedCheck(e, d, a, t, s.params, s.now, s.height);
    } else {
      FailedCheck(e, d, a, t, s.params, s.now, s.height, s.slotSeq, s.leaseSeq, s.log.gifts);
    }
  }
}
