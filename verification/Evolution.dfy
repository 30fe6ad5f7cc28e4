// What no run can undo: closed leases, frozen votes, final verdicts, paid rounds, stored beacons; and why an owner changed.
module Evolution {
  import opened Base
  import opened Folds
  import opened Bank
  import opened Tally
  import opened StoreKeys
  import opened ChainState
  import opened Market
  import opened LeaseSettlement
  import opened PublisherParams
  import opened Verdicts
  import opened Votes
  import opened Rounds
  import opened Assigning
  import opened Invariant
  import opened Chain
  import F = Finalization
  import S = Settlement
  import B = Bonding
  import G = Registration
  import C = CommitHash

  // Leases and slots.

  /** A lease keeps its terms; once closed it never changes again, in particular it never becomes active again. */
  predicate LeaseEvolves(a: Lease, b: Lease) {
    && b.slotId == a.slotId && b.publisher == a.publisher && b.lessee == a.lessee && b.starts == a.starts && b.ends == a.ends
    && b.denom == a.denom && b.total == a.total
    && (a.status != Active ==> b == a)
  }

  ghost predicate LeasesEvolve(before: map<string, Lease>, after: map<string, Lease>) {
    forall id :: id in before ==> id in after && LeaseEvolves(before[id], after[id])
  }

  /** A slot keeps its terms; only its publisher and status change. */
  ghost predicate SlotsEvolve(before: map<string, Slot>, after: map<string, Slot>) {
    forall id :: id in before ==>
      id in after && after[id] == before[id].(publisher := after[id].publisher, status := after[id].status)
  }

  ghost predicate TradeEvolves(s: State, t: State) {
    LeasesEvolve(s.leases, t.leases) && SlotsEvolve(s.slots, t.slots) && s.slotSeq <= t.slotSeq && s.leaseSeq <= t.leaseSeq
  }

  // Assignments and votes.

  /** A verdict is final and settlement is never taken back. */
  predicate AssignmentEvolves(a: Assignment, b: Assignment) {
    && SameDuty(a, b) && b.reregistration == a.reregistration
    && (a.finalized ==> b == a.(settled := b.settled))
    && (a.settled ==> b.settled)
  }

  ghost predicate DocketEvolves(before: Docket, after: Docket) {
    forall k :: k in before ==> k in after && AssignmentEvolves(before[k], after[k])
  }

  /** The reveals of a finalized assignment, and the tally recorded for it, are frozen. */
  ghost predicate Frozen(s: State, t: State) {
    forall k :: k in s.assignments && s.assignments[k].finalized && k in s.log.tallies ==>
      && ListSubmissions(t.submissions, k) == ListSubmissions(s.submissions, k)
      && k in t.log.tallies && t.log.tallies[k] == s.log.tallies[k]
  }

  ghost predicate MapGrows<K, V>(before: map<K, V>, after: map<K, V>) {
    forall k :: k in before ==> k in after && after[k] == before[k]
  }

  /** Votes, beacons and round metadata are only ever added; paid rounds stay on record in order. */
  ghost predicate RecordsGrow(s: State, t: State) {
    && MapGrows(s.submissions, t.submissions)
    && MapGrows(s.log.commitLog, t.log.commitLog)
    && MapGrows(s.beacons, t.beacons)
    && MapGrows(s.metas, t.metas)
    && s.log.settlements <= t.log.settlements
    && s.websites.Keys <= t.websites.Keys
    && s.now <= t.now
  }

  ghost predicate Evolves(s: State, t: State) {
    TradeEvolves(s, t) && DocketEvolves(s.assignments, t.assignments) && Frozen(s, t) && RecordsGrow(s, t)
  }

  lemma EvolvesRefl(s: State)
    ensures Evolves(s, s)
  {
  }

  lemma FrozenTrans(s: State, t: State, u: State)
    requires Frozen(s, t) && Frozen(t, u) && DocketEvolves(s.assignments, t.assignments)
    ensures Frozen(s, u)
  {
    forall k | k in s.assignments && s.assignments[k].finalized && k in s.log.tallies
      ensures ListSubmissions(u.submissions, k) == ListSubmissions(s.submissions, k)
      ensures k in u.log.tallies && u.log.tallies[k] == s.log.tallies[k]
    {
      assert AssignmentEvolves(s.assignments[k], t.assignments[k]);
    }
  }

  lemma TradeTrans(s: State, t: State, u: State)
    requires TradeEvolves(s, t) && TradeEvolves(t, u)
    ensures TradeEvolves(s, u)
  {
  }

  lemma DocketTrans(a: Docket, b: Docket, c: Docket)
    requires DocketEvolves(a, b) && DocketEvolves(b, c)
    ensures DocketEvolves(a, c)
  {
  }

  lemma RecordsTrans(s: State, t: State, u: State)
    requires RecordsGrow(s, t) && RecordsGrow(t, u)
    ensures RecordsGrow(s, u)
  {
  }

  lemma EvolvesTrans(s: State, t: State, u: State)
    requires Evolves(s, t) && Evolves(t, u)
    ensures Evolves(s, u)
  {
    TradeTrans(s, t, u);
    DocketTrans(s.assignments, t.assignments, u.assignments);
    FrozenTrans(s, t, u);
    RecordsTrans(s, t, u);
  }

  // Single steps.

  lemma TradeOnly(s: State, t: State)
    requires t == s.(bank := t.bank, slots := t.slots, leases := t.leases, slotSeq := t.slotSeq, leaseSeq := t.leaseSeq)
    requires TradeEvolves(s, t)
    ensures Evolves(s, t)
  {
  }

  lemma SlotEvolves(s: State, m: SlotMsg)
    requires SlotsOk(s.slots, s.websites, s.slotSeq) && CreateSlot(s, m).Ok?
    ensures Evolves(s, CreateSlot(s, m).value)
  {
    SlotIdFresh(s.slots, s.websites, s.slotSeq);
    TradeOnly(s, CreateSlot(s, m).value);
  }

  lemma NewLeaseEvolves(s: State, env: Env, m: LeaseMsg)
    requires LeasesOk(s.leases, s.slots, s.leaseSeq) && LeaseSlot(s, env, m).Ok?
    ensures Evolves(s, LeaseSlot(s, env, m).value)
  {
    LeaseIdFresh(s.leases, s.slots, s.leaseSeq);
    TradeOnly(s, LeaseSlot(s, env, m).value);
  }

  lemma StatusEvolves(s: State, m: StatusMsg)
    requires UpdateSlotStatus(s, m).Ok?
    ensures Evolves(s, UpdateSlotStatus(s, m).value)
  {
    TradeOnly(s, UpdateSlotStatus(s, m).value);
  }

  lemma BallotsOnly(s: State, b: Ballots)
    requires MapGrows(s.submissions, b.submissions) && MapGrows(s.log.commitLog, b.commitLog)
    requires forall k :: k in s.assignments && s.assignments[k].finalized ==>
      ListSubmissions(b.submissions, k) == ListSubmissions(s.submissions, k)
    ensures Evolves(s, WithBallots(s, b))
  {
  }

  lemma RevealEvolves(s: State, env: Env, m: C.Reveal)
    requires RevealVote(BallotsOf(s), s.assignments, s.params, env, s.now, m).Ok?
    ensures Evolves(s, WithBallots(s, RevealVote(BallotsOf(s), s.assignments, s.params, env, s.now, m).value))
  {
    var b := RevealVote(BallotsOf(s), s.assignments, s.params, env, s.now, m).value;
    forall k | k in s.assignments && s.assignments[k].finalized
      ensures ListSubmissions(b.submissions, k) == ListSubmissions(s.submissions, k)
    {
      FinalizedVotesFrozen(BallotsOf(s), s.assignments, s.params, env, s.now, m, k);
    }
    BallotsOnly(s, b);
  }

  lemma CommitLogGrows(b: Ballots, docket: Docket, p: Params, now: int, m: CommitMsg)
    requires LogsMatch(b) && SubmitCommit(b, docket, p, now, m).Ok?
    ensures MapGrows(b.commitLog, SubmitCommit(b, docket, p, now, m).value.commitLog)
  {
  }

  lemma CommitEvolves(s: State, m: CommitMsg)
    requires LogsMatch(BallotsOf(s)) && SubmitCommit(BallotsOf(s), s.assignments, s.params, s.now, m).Ok?
    ensures Evolves(s, WithBallots(s, SubmitCommit(BallotsOf(s), s.assignments, s.params, s.now, m).value))
  {
    SubmitCommitFrame(BallotsOf(s), s.assignments, s.params, s.now, m);
    CommitLogGrows(BallotsOf(s), s.assignments, s.params, s.now, m);
    BallotsOnly(s, SubmitCommit(BallotsOf(s), s.assignments, s.params, s.now, m).value);
  }

  lemma UpgradeEvolves(s: State)
    requires UpgradeStep(s).Ok?
    ensures Evolves(s, UpgradeStep(s).value)
  {
  }

  // The end of a block.

  lemma SettledBookEvolves(s: State, b: Book)
    requires SettledExactly(s, b, s.leases.Keys)
    ensures LeasesEvolve(s.leases, b.leases)
  {
    forall id | id in s.leases
      ensures id in b.leases && LeaseEvolves(s.leases[id], b.leases[id])
    {
      assert b.leases[id] == Settled(s, s.leases[id]);
    }
  }

  lemma SettledLeasesEvolve(s: State, env: Env)
    requires Inv(s, env) && SettleLeases(s).Ok?
    ensures Evolves(s, SettleLeases(s).value)
  {
    var b := SettleLeasesExact(s, "", "");
    SettledBookEvolves(s, b);
    TradeOnly(s, WithBook(s, b));
  }

  lemma PlanOnly(s: State, plan: Plan)
    requires DocketEvolves(s.assignments, plan.calendar.docket) && MapGrows(s.metas, plan.metas)
    requires plan.calendar.settlements == s.log.settlements
    ensures Evolves(s, WithCalendar(s, plan.calendar).(metas := plan.metas))
  {
  }

  lemma AssignEvolves(s: State, env: Env, anchor: string)
    requires AssignStep(s, env, anchor).Ok?
    ensures Evolves(s, AssignStep(s, env, anchor).value)
  {
    var plan := AssignNewRound(PlanOf(s), SceneOf(s, anchor), s.params, env, s.beacons).value;
    AssignAdds(PlanOf(s), SceneOf(s, anchor), s.params, env, s.beacons, AssignmentId(0, ""));
    forall k | k in s.assignments
      ensures k in plan.calendar.docket && AssignmentEvolves(s.assignments[k], plan.calendar.docket[k])
    {
      AssignAdds(PlanOf(s), SceneOf(s, anchor), s.params, env, s.beacons, k);
    }
    forall r | r in s.metas
      ensures r in plan.metas && plan.metas[r] == s.metas[r]
    {
      MetasOnlyAdded(PlanOf(s), SceneOf(s, anchor), s.params, env, s.beacons, r);
    }
    PlanOnly(s, plan);
  }

  lemma FlagsEvolve(before: Docket, after: Docket)
    requires S.FlagsOnly(before, after)
    ensures DocketEvolves(before, after)
  {
  }

  lemma SettleRoundsEvolves(s: State, env: Env)
    requires Inv(s, env) && S.SettleRounds(s).Ok?
    ensures Evolves(s, S.SettleRounds(s).value)
  {
    S.SettleRoundsExact(s, env);
    SettledEvolves(s, S.SettleRounds(s).value);
  }

  lemma SettledEvolves(s: State, t: State)
    requires S.Untouched(s, t) && S.FlagsOnly(s.assignments, t.assignments) && s.log.settlements <= t.log.settlements
    ensures Evolves(s, t)
  {
    FlagsEvolve(s.assignments, t.assignments);
  }

  // Finalization.

  lemma RefundedEvolve(before: map<string, Lease>, after: map<string, Lease>, slots: map<string, Slot>, d: string, now: int)
    requires RefundedExactly(before, after, OnAir(before, slots, d, now), now)
    ensures LeasesEvolve(before, after)
  {
  }

  lemma TransferEvolves(slots: map<string, Slot>, d: string, from: string, to: string)
    ensures SlotsEvolve(slots, Verdicts.Transfer(slots, d, from, to))
  {
  }

  lemma JudgeSlots(e: Estate, d: string, a: Assignment, t: Stats, p: Params, now: int, height: int)
    requires Judge(e, d, a, t, p, now, height).Ok?
    ensures SlotsEvolve(e.slots, Judge(e, d, a, t, p, now, height).value.slots)
  {
    if d in e.websites && Judge(e, d, a, t, p, now, height).value.slots != e.slots {
      TransferEvolves(e.slots, d, e.websites[d].owner, e.websites[d].pendingOwner);
    }
  }

  lemma PunishLeases(e: Estate, d: string, p: Params, now: int, slotSeq: nat, leaseSeq: nat, gifts: Ledger)
    requires EstateOk(e, slotSeq, leaseSeq, gifts) && d in e.websites && Punish(e, d, p, now).Ok?
    ensures LeasesEvolve(e.book.leases, Punish(e, d, p, now).value.book.leases)
  {
    var b := ViolateLeasesExact(e.book, e.slots, d, now, leaseSeq, gifts);
    RefundedEvolve(e.book.leases, b.leases, e.slots, d, now);
  }

  lemma JudgeLeases(e: Estate, d: string, a: Assignment, t: Stats, p: Params, now: int, height: int,
                    slotSeq: nat, leaseSeq: nat, gifts: Ledger)
    requires EstateOk(e, slotSeq, leaseSeq, gifts) && Judge(e, d, a, t, p, now, height).Ok?
    ensures LeasesEvolve(e.book.leases, Judge(e, d, a, t, p, now, height).value.book.leases)
  {
    if d in e.websites && !a.reregistration && HasQuorum(t) && !MajorityPass(t) {
      var f := Demote(e, d, p);
      RewriteKeeps(e, d, f.websites[d], f.streaks, slotSeq, leaseSeq, gifts);
      PunishLeases(f, d, p, now, slotSeq, leaseSeq, gifts);
    }
  }

  lemma FinalizeOneTrade(s: State, k: AssignmentId)
    requires MarketPart(s) && F.FinalizeOne(s, k).Ok?
    ensures TradeEvolves(s, F.FinalizeOne(s, k).value)
  {
    if F.Expired(s, k) {
      JudgeLeases(EstateOf(s), k.domain, s.assignments[k], F.TallyFor(s, k), s.params, s.now, s.height,
                  s.slotSeq, s.leaseSeq, s.log.gifts);
      JudgeSlots(EstateOf(s), k.domain, s.assignments[k], F.TallyFor(s, k), s.params, s.now, s.height);
      assert EstateOf(F.FinalizeOne(s, k).value) == F.JudgeFor(s, k).value;
    }
  }

  lemma FinalizeTrade(s: State)
    requires MarketPart(s) && F.FinalizeAssignments(s).Ok?
    ensures TradeEvolves(s, F.FinalizeAssignments(s).value)
  {
    var ks := SortedAssignments(s.assignments.Keys);
    var inv := (t: State, n: nat) => MarketPart(t) && TradeEvolves(s, t);
    forall t, i: nat | i < |ks| && inv(t, i) && F.FinalizeOne(t, ks[i]).Ok?
      ensures inv(F.FinalizeOne(t, ks[i]).value, i + 1)
    {
      F.FinalizeMarket(t, ks[i]);
      FinalizeOneTrade(t, ks[i]);
      TradeTrans(s, t, F.FinalizeOne(t, ks[i]).value);
    }
    FoldPreserves(F.FinalizeOne, s, ks, |ks|, inv);
  }

  lemma FinalizingEvolves(s: State, t: State)
    requires F.Finalizing(s, t)
    ensures DocketEvolves(s.assignments, t.assignments) && Frozen(s, t) && RecordsGrow(s, t)
  {
  }

  lemma FinalizeEvolves(s: State)
    requires MarketPart(s) && F.FinalizeAssignments(s).Ok?
    ensures Evolves(s, F.FinalizeAssignments(s).value)
  {
    FinalizeTrade(s);
    F.FinalizeChanges(s);
    FinalizingEvolves(s, F.FinalizeAssignments(s).value);
  }

  lemma EndBlockEvolves(s: State, env: Env, anchor: string)
    requires Inv(s, env) && EndBlockStep(s, env, anchor).Ok?
    ensures Evolves(s, EndBlockStep(s, env, anchor).value)
  {
    var t := F.FinalizeAssignments(s).value;
    FinalizeEvolves(s);
    F.FinalizeKeeps(s, env);
    var u := S.SettleRounds(t).value;
    SettleRoundsEvolves(t, env);
    S.SettleRoundsKeeps(t, env);
    var v := SettleLeases(u).value;
    SettledLeasesEvolve(u, env);
    AssignEvolves(v, env, anchor);
    EvolvesTrans(s, t, u);
    EvolvesTrans(s, u, v);
    EvolvesTrans(s, v, AssignStep(v, env, anchor).value);
  }

  // Every run.

  lemma RegisterEvolves(s: State, env: Env, m: G.RegisterMsg)
    requires RegisterStep(s, env, m).Ok?
    ensures Evolves(s, RegisterStep(s, env, m).value)
  {
  }

  lemma BeaconEvolves(s: State, env: Env, m: BeaconMsg)
    requires BeaconStep(s, env, m).Ok?
    ensures Evolves(s, BeaconStep(s, env, m).value)
  {
  }

  lemma BondsEvolve(s: State, e: B.Escrow)
    ensures Evolves(s, WithBonds(s, e))
  {
  }

  lemma TransferStepEvolves(s: State, from: string, to: Account, denom: string, amount: nat)
    requires TransferStep(s, from, to, denom, amount).Ok?
    ensures Evolves(s, TransferStep(s, from, to, denom, amount).value)
  {
  }

  lemma NextBlockEvolves(s: State, time: int, height: int)
    requires NextBlockStep(s, time, height).Ok?
    ensures Evolves(s, NextBlockStep(s, time, height).value)
  {
  }

  lemma MessageEvolves(s: State, env: Env, e: Event)
    requires IsMessage(e) && Inv(s, env) && MessageStep(s, env, e).Ok?
    ensures Evolves(s, MessageStep(s, env, e).value)
  {
    match e
    case Register(m) => RegisterEvolves(s, env, m);
    case Commit(m) => CommitEvolves(s, m);
    case Reveal(m) => RevealEvolves(s, env, m);
    case NewSlot(m) => SlotEvolves(s, m);
    case SlotStatus(m) => StatusEvolves(s, m);
    case NewLease(m) => NewLeaseEvolves(s, env, m);
    case SendBeacon(m) => BeaconEvolves(s, env, m);
    case Bond(m) => BondsEvolve(s, B.BondCoins(BondsOf(s), s.bondParams, m).value);
    case Unbond(m) => BondsEvolve(s, B.UnbondCoins(BondsOf(s), s.bondParams, m).value);
    case Transfer(from, to, denom, amount) => TransferStepEvolves(s, from, to, denom, amount);
    case Upgrade => UpgradeEvolves(s);
  }

  lemma StepEvolves(s: State, env: Env, e: Event)
    requires Inv(s, env) && Step(s, env, e).Ok?
    ensures Evolves(s, Step(s, env, e).value)
  {
    if e.EndBlock? { EndBlockEvolves(s, env, e.anchor); }
    else if e.NextBlock? { NextBlockEvolves(s, e.time, e.height); }
    else { MessageEvolves(s, env, e); }
  }

  lemma NextEvolves(s: State, env: Env, e: Event)
    requires Inv(s, env)
    ensures Evolves(s, Next(s, env, e))
  {
    if Step(s, env, e).Ok? { StepEvolves(s, env, e); } else { EvolvesRefl(s); }
  }

  lemma NextKeeps(s: State, env: Env, e: Event)
    requires Inv(s, env)
    ensures Inv(Next(s, env, e), env)
  {
    if Step(s, env, e).Ok? { StepKeeps(s, env, e); }
  }

  /** A reflexive and transitive relation that every step from a good state respects relates the states of a run. */
  lemma {:induction false} RunRelates(s: State, env: Env, events: seq<Event>, n: nat, good: State -> bool, rel: (State, State) -> bool)
    requires good(s) && n <= |events|
    requires forall t :: rel(t, t)
    requires forall t, u, v :: rel(t, u) && rel(u, v) ==> rel(t, v)
    requires forall t, e :: good(t) ==> good(Next(t, env, e)) && rel(t, Next(t, env, e))
    ensures good(Run(s, env, events)) && rel(Run(s, env, events[..n]), Run(s, env, events))
    decreases |events|
  {
    var m := |events| - 1;
    if n == |events| {
      assert events[..n] == events;
      if m >= 0 { RunRelates(s, env, events[..m], m, good, rel); }
    } else {
      assert events[..m][..n] == events[..n];
      RunRelates(s, env, events[..m], n, good, rel);
    }
  }

  /** Over every run: closed leases, final verdicts, frozen votes, paid rounds and stored beacons stay as they are. */
  lemma RunEvolves(s: State, env: Env, events: seq<Event>, n: nat)
    requires Inv(s, env) && n <= |events|
    ensures Evolves(Run(s, env, events[..n]), Run(s, env, events))
  {
    forall t { EvolvesRefl(t); }
    forall t, u, v | Evolves(t, u) && Evolves(u, v) { EvolvesTrans(t, u, v); }
    var good := (t: State) => Inv(t, env);
    forall t, e | good(t)
      ensures good(Next(t, env, e)) && Evolves(t, Next(t, env, e))
    {
      NextKeeps(t, env, e);
      NextEvolves(t, env, e);
    }
    RunRelates(s, env, events, n, good, Evolves);
  }
}
