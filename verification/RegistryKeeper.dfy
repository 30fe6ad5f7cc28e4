// The registry keeper as an object whose methods update its stores step by step
// (x/registry/keeper.go, msg_server.go, lease_settlement.go, slot_keeper.go, verification_keeper.go,
// verification_rounds.go, module.go). Each method is tied to the step function of the state machine.
module RegistryStore {
  import opened Base
  import opened Folds
  import opened Orders
  import opened Text
  import opened Domains
  import opened Bank
  import opened Tally
  import opened PublisherParams
  import opened StoreKeys
  import opened ChainState
  import opened DrandSchedule
  import opened Market
  import opened LeaseSettlement
  import opened Verdicts
  import opened Votes
  import opened Rounds
  import opened Assigning
  import opened Invariant
  import opened Finalization
  import opened Keepers
  import T = Settlement
  import P = Payments
  import B = Bonding
  import G = Registration
  import C = CommitHash
  import E = Emission
  import R = RewardSplit
  import S = Sampling
  import N = Chain

  ghost function Airs(leases: map<string, Lease>, slots: map<string, Slot>, domain: string, now: int): string -> bool {
    id => id in leases && Airing(leases[id], slots, domain, now)
  }

  predicate Clashes(l: Lease, slotId: string, starts: int, ends: int) {
    l.slotId == slotId && l.status == Active && starts < l.ends && ends > l.starts
  }

  lemma NoClash(leases: map<string, Lease>, all: seq<string>, slotId: string, starts: int, ends: int)
    requires Enumerates(all, leases.Keys) && forall i :: 0 <= i < |all| ==> all[i] in leases
    requires forall i :: 0 <= i < |all| ==> !Clashes(leases[all[i]], slotId, starts, ends)
    ensures NoOverlap(leases, slotId, starts, ends)
  {
    forall id | id in leases
      ensures !Clashes(leases[id], slotId, starts, ends)
    {
      assert id in all;
    }
  }

  lemma AirsSorted(leases: map<string, Lease>, slots: map<string, Slot>, domain: string, now: int)
    ensures var all := SortedStrings(leases.Keys);
      Filter(all, Airs(leases, slots, domain, now), |all|) == SortedStrings(OnAir(leases, slots, domain, now))
  {
    FilterIsSorted(leases.Keys, Airs(leases, slots, domain, now), OnAir(leases, slots, domain, now));
  }

  ghost function OwnedOn(slots: map<string, Slot>, domain: string, owner: string): string -> bool {
    id => id in slots && slots[id].domain == domain && slots[id].publisher == owner
  }

  /** after is before with the slots in ids handed to the new publisher. */
  ghost predicate Rewritten(before: map<string, Slot>, after: map<string, Slot>, ids: seq<string>, to: string) {
    && after.Keys == before.Keys
    && forall id :: id in before ==> after[id] == if id in ids then before[id].(publisher := to) else before[id]
  }

  lemma RewriteStep(before: map<string, Slot>, slots: map<string, Slot>, ids: seq<string>, i: nat, to: string)
    requires i < |ids| && ids[i] in slots && Rewritten(before, slots, ids[..i], to)
    ensures Rewritten(before, slots[ids[i] := slots[ids[i]].(publisher := to)], ids[..i + 1], to)
  {
    assert ids[..i + 1] == ids[..i] + [ids[i]];
  }

  lemma CollectedSlots(slots: map<string, Slot>, domain: string, owner: string)
    ensures var all := SortedStrings(slots.Keys);
      var ids := Filter(all, OwnedOn(slots, domain, owner), |all|);
      NoDup(ids) && forall id :: id in ids <==> id in slots && slots[id].domain == domain && slots[id].publisher == owner
  {
    var all := SortedStrings(slots.Keys);
    FullPrefix(all);
    FilterMembers(all, OwnedOn(slots, domain, owner), |all|);
    FilterSorted(all, OwnedOn(slots, domain, owner), LexLe, |all|);
  }

  function Finished(a: Assignment, now: int, verified: bool): Assignment {
    a.(finalized := true, finalizedAt := now, verified := verified)
  }

  /** The view after finalizing one expired assignment, put together from its parts. */
  lemma FinalizeOneIs(s: State, k: AssignmentId, a: Assignment, t: Stats, u: State)
    requires Expired(s, k) && a == s.assignments[k] && t == TallyOf(s.submissions, k, a)
    ensures var j := Judge(EstateOf(s), k.domain, a, t, s.params, s.now, s.height);
      && (j.Err? ==> FinalizeOne(s, k) == Err(j.error))
      && (j.Ok? && !Storable(k, a) ==> FinalizeOne(s, k) == Err(Invalid))
      && (&& j == Ok(EstateOf(u)) && Storable(k, a)
          && u == s.(websites := u.websites, streaks := u.streaks, slots := u.slots, bank := u.bank, leases := u.leases,
                     penalties := PenaltiesAfter(s.penalties, s.submissions, k, t, a.verifiers, |a.verifiers|, s.params, s.now),
                     assignments := s.assignments[k := Finished(a, s.now, Earned(EstateOf(s), k.domain, a, t))],
                     unsettled := if a.settled then s.unsettled else s.unsettled + {k.round},
                     log := s.log.(tallies := s.log.tallies[k := t]))
          ==> FinalizeOne(s, k) == Ok(u))
  {
  }

  /** The verdict failed, or the assignment could not be stored again. */
  ghost predicate FailedWith(j: Result<Estate, Error>, k: AssignmentId, a: Assignment, e: Error) {
    j == Err(e) || (j.Ok? && !Storable(k, a) && e == Invalid)
  }

  // Batches of payments.

  /** The ledger after a batch out of the emission pool. */
  function Paid(b: Ledger, ps: seq<Payment>): Option<Ledger> {
    SendAll(b, TOKENOMICS, REWARD_DENOM, ps)
  }

  predicate StartsWith(whole: seq<Payment>, part: seq<Payment>) {
    |part| <= |whole| && whole[..|part|] == part
  }

  /** If the beginning of a batch fails, the batch fails. */
  lemma PrefixFails(b: Ledger, part: seq<Payment>, whole: seq<Payment>)
    requires StartsWith(whole, part) && SendAll(b, TOKENOMICS, REWARD_DENOM, part) == None
    ensures SendAll(b, TOKENOMICS, REWARD_DENOM, whole) == None
  {
    assert whole == part + whole[|part|..];
    SendAllConcat(b, TOKENOMICS, REWARD_DENOM, part, whole[|part|..]);
  }

  /** One more publisher. */
  lemma PublisherPaymentsStep(b: Ledger, x: P.Records, p: Params, active: seq<AssignmentId>, base: nat, i: nat)
    requires i < |active| && Paid(b, P.PublisherPayments(x, p, active[..i], base)).Some?
    ensures var ps, q := P.PublisherPayments(x, p, active[..i], base), P.PublisherPayment(x, p, active[i], base);
      var qs := P.PublisherPayments(x, p, active[..i + 1], base);
      && Paid(b, qs) == Paid(Paid(b, ps).value, q)
      && SumPayments(qs) == SumPayments(ps) + SumPayments(q)
  {
    assert active[..i + 1][..i] == active[..i];
    var ps, q := P.PublisherPayments(x, p, active[..i], base), P.PublisherPayment(x, p, active[i], base);
    SendAllConcat(b, TOKENOMICS, REWARD_DENOM, ps, q);
    SumPaymentsConcat(ps, q);
  }

  lemma FailedPublisherFails(b: Ledger, x: P.Records, p: Params, active: seq<AssignmentId>, base: nat, n: nat)
    requires |active| == n + 1 && Paid(b, P.PublisherPayments(x, p, active[..n], base)) == None
    ensures Paid(b, P.PublisherPayments(x, p, active, base)) == None
  {
    SendAllConcat(b, TOKENOMICS, REWARD_DENOM, P.PublisherPayments(x, p, active[..n], base), P.PublisherPayment(x, p, active[n], base));
  }

  lemma {:induction false} PublisherPaymentsFail(b: Ledger, x: P.Records, p: Params, active: seq<AssignmentId>, base: nat, i: nat)
    requires i <= |active| && Paid(b, P.PublisherPayments(x, p, active[..i], base)) == None
    ensures Paid(b, P.PublisherPayments(x, p, active, base)) == None
    decreases |active|
  {
    if i < |active| {
      var n := |active| - 1;
      assert active[..n][..i] == active[..i];
      PublisherPaymentsFail(b, x, p, active[..n], base, i);
      FailedPublisherFails(b, x, p, active, base, n);
    } else {
      assert active[..i] == active;
    }
  }

  lemma PayListStep(b: Ledger, successful: seq<string>, payouts: map<string, int>, i: nat)
    requires i < |successful| && P.Defined(successful[..i], payouts) && R.AllPositive(payouts) && successful[i] in payouts
    ensures P.Defined(successful[..i + 1], payouts)
    ensures SumPayments(P.PayList(successful[..i + 1], payouts)) == SumPayments(P.PayList(successful[..i], payouts)) + payouts[successful[i]]
    ensures SendAll(b, TOKENOMICS, REWARD_DENOM, P.PayList(successful[..i + 1], payouts))
         == match SendAll(b, TOKENOMICS, REWARD_DENOM, P.PayList(successful[..i], payouts))
            case None => None
            case Some(c) => Send(c, TOKENOMICS, User(successful[i]), REWARD_DENOM, payouts[successful[i]])
  {
    var names, last := successful[..i + 1], Payment(successful[i], payouts[successful[i]]);
    assert names[..i] == successful[..i] && names[i] == successful[i];
    forall j | 0 <= j < |names|
      ensures names[j] in payouts
    {
      assert j < i ==> names[j] == successful[..i][j];
    }
    assert P.PayList(names, payouts) == P.PayList(successful[..i], payouts) + [last];
    SendAllAppend(b, TOKENOMICS, REWARD_DENOM, P.PayList(successful[..i], payouts), last);
  }

  lemma {:induction false} PayListStart(successful: seq<string>, payouts: map<string, int>, i: nat)
    requires i <= |successful| && P.Defined(successful, payouts) && R.AllPositive(payouts)
    ensures P.Defined(successful[..i], payouts)
    ensures StartsWith(P.PayList(successful, payouts), P.PayList(successful[..i], payouts))
    decreases |successful|
  {
    if i < |successful| {
      var n := |successful| - 1;
      assert successful[..n][..i] == successful[..i];
      PayListStart(successful[..n], payouts, i);
    } else {
      assert successful[..i] == successful;
    }
  }

  /** A batch that exists and goes through. */
  function Delivered(b: Ledger, ps: Result<seq<Payment>, Error>): Option<Ledger> {
    if ps.Ok? then SendAll(b, TOKENOMICS, REWARD_DENOM, ps.value) else None
  }

  /** The payments of one assignment in terms of its split. */
  lemma SplitPayments(x: P.Records, p: Params, k: AssignmentId, total: nat)
    requires total > 0 && P.Successful(x.submissions, k) != []
    ensures var successful := P.Successful(x.submissions, k);
      var payouts := R.SplitPools(R.BasePool(total, p.BaseShareBps()), R.WeightedPool(total, p.BaseShareBps()), successful,
                                  P.Weights(x, successful)).payouts;
      && R.AllPositive(payouts)
      && P.VerifierPayments(x, p, k, total)
         == if P.Defined(successful, payouts) then Ok(P.PayList(successful, payouts)) else Err(NilAmount)
  {
    P.SplitFacts(x, p, k, total);
  }

  /** One more assignment's verifiers. */
  lemma VerifierPaymentsStep(b: Ledger, x: P.Records, p: Params, active: seq<AssignmentId>, per: nat, i: nat)
    requires i < |active| && Delivered(b, P.AllVerifierPayments(x, p, active[..i], per)).Some?
    ensures var ps, q := P.AllVerifierPayments(x, p, active[..i], per), P.VerifierPayments(x, p, active[i], per);
      var qs := P.AllVerifierPayments(x, p, active[..i + 1], per);
      && Delivered(b, qs) == Delivered(Delivered(b, ps).value, q)
      && (q.Ok? ==> qs.Ok? && SumPayments(qs.value) == SumPayments(ps.value) + SumPayments(q.value))
  {
    assert active[..i + 1][..i] == active[..i];
    var ps, q := P.AllVerifierPayments(x, p, active[..i], per), P.VerifierPayments(x, p, active[i], per);
    if q.Ok? {
      SendAllConcat(b, TOKENOMICS, REWARD_DENOM, ps.value, q.value);
      SumPaymentsConcat(ps.value, q.value);
    }
  }

  lemma FailedBatchFails(b: Ledger, x: P.Records, p: Params, active: seq<AssignmentId>, per: nat, n: nat)
    requires |active| == n + 1 && Delivered(b, P.AllVerifierPayments(x, p, active[..n], per)) == None
    ensures Delivered(b, P.AllVerifierPayments(x, p, active, per)) == None
  {
    var ps, q := P.AllVerifierPayments(x, p, active[..n], per), P.VerifierPayments(x, p, active[n], per);
    if ps.Ok? && q.Ok? { SendAllConcat(b, TOKENOMICS, REWARD_DENOM, ps.value, q.value); }
  }

  lemma {:induction false} VerifierPaymentsFail(b: Ledger, x: P.Records, p: Params, active: seq<AssignmentId>, per: nat, i: nat)
    requires i <= |active| && Delivered(b, P.AllVerifierPayments(x, p, active[..i], per)) == None
    ensures Delivered(b, P.AllVerifierPayments(x, p, active, per)) == None
    decreases |active|
  {
    if i < |active| {
      var n := |active| - 1;
      assert active[..n][..i] == active[..i];
      VerifierPaymentsFail(b, x, p, active[..n], per, i);
      FailedBatchFails(b, x, p, active, per, n);
    } else {
      assert active[..i] == active;
    }
  }

  /** after is docket with the assignments in ks settled. */
  ghost predicate Marked(docket: Docket, after: Docket, ks: seq<AssignmentId>) {
    after.Keys == docket.Keys && forall k :: k in docket ==> after[k] == if k in ks then docket[k].(settled := true) else docket[k]
  }

  lemma MarkStep(docket: Docket, after: Docket, ks: seq<AssignmentId>, i: nat)
    requires i < |ks| && ks[i] in docket && Marked(docket, after, ks[..i])
    ensures Marked(docket, after[ks[i] := after[ks[i]].(settled := true)], ks[..i + 1])
  {
    assert ks[..i + 1] == ks[..i] + [ks[i]];
  }

  /** The first n of the listed assignments can be stored. */
  ghost predicate StorableUpTo(docket: Docket, ks: seq<AssignmentId>, n: nat) {
    n <= |ks| && forall i :: 0 <= i < n ==> ks[i] in docket && Storable(ks[i], docket[ks[i]])
  }

  /** Settling an assignment does not make it less storable. */
  lemma StorableStep(docket: Docket, after: Docket, ks: seq<AssignmentId>, i: nat)
    requires i < |ks| && ks[i] in docket && Marked(docket, after, ks[..i]) && StorableUpTo(docket, ks, i)
    ensures StorableUpTo(docket, ks, i + 1) <==> Storable(ks[i], after[ks[i]].(settled := true))
  {
    assert after[ks[i]].(settled := true) == docket[ks[i]].(settled := true);
  }

  lemma StorableRound(docket: Docket, ks: seq<AssignmentId>, r: int)
    requires Enumerates(ks, RoundKeys(docket, r))
    ensures StorableUpTo(docket, ks, |ks|) <==> T.RoundStorable(docket, r)
  {
    assert forall i :: 0 <= i < |ks| ==> ks[i] in ks;
    if StorableUpTo(docket, ks, |ks|) {
      forall k | k in RoundKeys(docket, r)
        ensures Storable(k, docket[k])
      {
        assert k in ks;
      }
    }
  }

  lemma StorableAll(docket: Docket, ks: seq<AssignmentId>)
    requires Enumerates(ks, docket.Keys)
    ensures StorableUpTo(docket, ks, |ks|) <==> AllStorable(docket)
  {
    assert forall i :: 0 <= i < |ks| ==> ks[i] in ks;
    if StorableUpTo(docket, ks, |ks|) {
      forall k | k in docket
        ensures Storable(k, docket[k])
      {
        assert k in ks;
      }
    }
  }

  lemma MarkedRound(docket: Docket, after: Docket, ks: seq<AssignmentId>, r: int)
    requires Marked(docket, after, ks) && Enumerates(ks, RoundKeys(docket, r))
    ensures after == Settle(docket, r)
  {
  }

  ghost predicate FinalizedUpTo(docket: Docket, ks: seq<AssignmentId>, n: nat)
    requires n <= |ks| && forall i :: 0 <= i < |ks| ==> ks[i] in docket
  {
    forall i :: 0 <= i < n ==> docket[ks[i]].finalized
  }

  function SettledCount(docket: Docket, ks: seq<AssignmentId>, n: nat): nat
    requires n <= |ks| && forall i :: 0 <= i < |ks| ==> ks[i] in docket
  {
    if n == 0 then 0 else SettledCount(docket, ks, n - 1) + (if docket[ks[n - 1]].settled then 1 else 0)
  }

  /** The counting loop over one round's assignments. */
  method CountRound(docket: Docket, ks: seq<AssignmentId>) returns (allFinalized: bool, settledCount: nat)
    requires forall i :: 0 <= i < |ks| ==> ks[i] in docket
    ensures allFinalized == FinalizedUpTo(docket, ks, |ks|) && settledCount == SettledCount(docket, ks, |ks|)
  {
    allFinalized, settledCount := true, 0;
    var i := 0;
    while i < |ks|
      invariant 0 <= i <= |ks|
      invariant allFinalized == FinalizedUpTo(docket, ks, i) && settledCount == SettledCount(docket, ks, i)
    {
      if !docket[ks[i]].finalized { allFinalized := false; }
      if docket[ks[i]].settled { settledCount := settledCount + 1; }
      i := i + 1;
    }
  }

  lemma {:induction false} SettledCountExtremes(docket: Docket, ks: seq<AssignmentId>, n: nat)
    requires n <= |ks| && forall i :: 0 <= i < |ks| ==> ks[i] in docket
    ensures SettledCount(docket, ks, n) <= n
    ensures SettledCount(docket, ks, n) == n <==> forall i :: 0 <= i < n ==> docket[ks[i]].settled
    ensures SettledCount(docket, ks, n) == 0 <==> forall i :: 0 <= i < n ==> !docket[ks[i]].settled
  {
    if n > 0 { SettledCountExtremes(docket, ks, n - 1); }
  }

  lemma CountsDecide(docket: Docket, ks: seq<AssignmentId>, r: int)
    requires Enumerates(ks, RoundKeys(docket, r)) && forall i :: 0 <= i < |ks| ==> ks[i] in docket
    ensures FinalizedUpTo(docket, ks, |ks|) <==> AllFinalized(docket, r)
    ensures SettledCount(docket, ks, |ks|) == |ks| <==> AllSettled(docket, r)
    ensures SettledCount(docket, ks, |ks|) == 0 <==> NoneSettled(docket, r)
  {
    SettledCountExtremes(docket, ks, |ks|);
    assert forall i :: 0 <= i < |ks| ==> ks[i] in ks;
    assert forall k :: k in RoundKeys(docket, r) ==> k in ks;
  }

  /** The view after paying a round, put together from its parts. */
  lemma PaidIs(s: State, r: int, u: State)
    requires s.params.Valid() && Decide(s.assignments, r) == Pay
    ensures var p := P.SettlePayments(TreasuryOf(s), RecordsOf(s), s.params, r);
      && (p.Err? || !T.RoundStorable(s.assignments, r) ==> T.SettleRound(s, r).Err?)
      && (p == Ok(TreasuryOf(u)) && T.RoundStorable(s.assignments, r)
          && u == s.(bank := u.bank, funded := u.funded, assignments := Settle(s.assignments, r), unsettled := s.unsettled - {r},
                     log := s.log.(settlements := s.log.settlements + [r], paid := u.log.paid, burned := u.log.burned))
          ==> T.SettleRound(s, r) == Ok(u))
  {
  }

  ghost function DueAt(websites: map<string, Website>, r: int): string -> bool {
    d => d in websites && Assigning.Due(websites[d], r)
  }

  lemma DueSorted(websites: map<string, Website>, r: int)
    ensures var all := SortedStrings(websites.Keys);
      Filter(all, DueAt(websites, r), |all|) == SortedStrings(DueSites(websites, r))
  {
    FilterIsSorted(websites.Keys, DueAt(websites, r), DueSites(websites, r));
  }

  /** The new assignments of the given domains. */
  ghost function First(all: Docket, domains: seq<string>): Docket {
    map k | k in all && k.domain in domains :: all[k]
  }

  lemma DueDomains(domains: seq<string>, due: set<string>, websites: map<string, Website>)
    requires Enumerates(domains, due) && due <= websites.Keys
    ensures forall i :: 0 <= i < |domains| ==> domains[i] in due && domains[i] in websites
  {
    assert forall i :: 0 <= i < |domains| ==> domains[i] in domains;
  }

  lemma NewDomains(c: Scene, p: Params, env: Env, before: Docket, seed: string, r: int, domains: seq<string>)
    requires p.Valid() && Enumerates(domains, DueSites(c.websites, r))
    ensures forall k :: k in NewRound(c, p, env, before, seed, r) ==> k.domain in domains
  {
  }

  lemma FirstStep(all: Docket, domains: seq<string>, i: nat, k: AssignmentId)
    requires i < |domains| && NoDup(domains) && k.domain == domains[i]
    requires forall l :: l in all ==> l.round == k.round
    ensures k !in First(all, domains[..i])
    ensures First(all, domains[..i + 1]) == if k in all then First(all, domains[..i])[k := all[k]] else First(all, domains[..i])
  {
    assert domains[..i + 1] == domains[..i] + [domains[i]];
  }

  lemma AssignAdvance(c: Scene, p: Params, env: Env, seed: string, r: int, before: Docket, all: Docket, domains: seq<string>, i: nat)
    requires p.Valid() && all == NewRound(c, p, env, before, seed, r) && NoDup(domains)
    requires i < |domains| && domains[i] in c.websites && domains[i] in DueSites(c.websites, r)
    ensures var k, done, next := AssignmentId(r, domains[i]), First(all, domains[..i]), First(all, domains[..i + 1]);
      && (k in before + done <==> k in before)
      && (k in before ==> next == done)
      && (k !in before ==> next == done[k := NewAssignment(c, p, env, seed, r, domains[i])] && next != map[]
                           && before + next == (before + done)[k := NewAssignment(c, p, env, seed, r, domains[i])])
  {
    NewRoundAt(c, p, env, before, seed, r, domains[i]);
    AddFirst(before, all, domains, i, AssignmentId(r, domains[i]), NewAssignment(c, p, env, seed, r, domains[i]));
  }

  lemma NewRoundAt(c: Scene, p: Params, env: Env, before: Docket, seed: string, r: int, d: string)
    requires p.Valid() && d in c.websites && d in DueSites(c.websites, r)
    ensures var all, k := NewRound(c, p, env, before, seed, r), AssignmentId(r, d);
      && (k in all <==> k !in before)
      && (k in all ==> all[k] == NewAssignment(c, p, env, seed, r, d))
      && before.Keys !! all.Keys && forall l :: l in all ==> l.round == r
  {
  }

  lemma AddFirst(before: Docket, all: Docket, domains: seq<string>, i: nat, k: AssignmentId, a: Assignment)
    requires i < |domains| && NoDup(domains) && k.domain == domains[i] && before.Keys !! all.Keys
    requires (forall l :: l in all ==> l.round == k.round) && (k in all <==> k !in before) && (k in all ==> all[k] == a)
    ensures var done, next := First(all, domains[..i]), First(all, domains[..i + 1]);
      && (k in before + done <==> k in before)
      && (k in before ==> next == done)
      && (k !in before ==> next == done[k := a] && next != map[] && before + next == (before + done)[k := a])
  {
    FirstStep(all, domains, i, k);
  }

  /** One more assignment is storable together with the others exactly when it is storable itself. */
  lemma StorableAdvance(done: Docket, k: AssignmentId, a: Assignment)
    requires AllStorable(done)
    ensures AllStorable(done[k := a]) <==> Storable(k, a)
  {
    assert done[k := a][k] == a;
  }

  /** The first i domains are assigned, or one of their assignments cannot be stored. */
  ghost predicate AssignedUpTo(before: Docket, open: set<int>, all: Docket, r: int, domains: seq<string>, i: nat,
                               ok: bool, docket: Docket, unsettled: set<int>)
  {
    && i <= |domains|
    && ok == AllStorable(First(all, domains[..i]))
    && (ok ==> docket == before + First(all, domains[..i])
               && unsettled == if First(all, domains[..i]) == map[] then open else open + {r})
  }

  lemma AssignedNext(c: Scene, p: Params, env: Env, seed: string, r: int, before: Docket, open: set<int>, all: Docket,
                     domains: seq<string>, i: nat, docket: Docket, unsettled: set<int>,
                     ok: bool, docket': Docket, unsettled': set<int>)
    requires p.Valid() && all == NewRound(c, p, env, before, seed, r) && NoDup(domains)
    requires i < |domains| && domains[i] in c.websites && domains[i] in DueSites(c.websites, r)
    requires AssignedUpTo(before, open, all, r, domains, i, true, docket, unsettled)
    requires var k, a := AssignmentId(r, domains[i]), NewAssignment(c, p, env, seed, r, domains[i]);
      && ok == (k in docket || Storable(k, a))
      && (ok ==> docket' == (if k in docket then docket else docket[k := a])
                 && unsettled' == (if k in docket then unsettled else unsettled + {r}))
    ensures AssignedUpTo(before, open, all, r, domains, i + 1, ok, docket', unsettled')
  {
    AssignAdvance(c, p, env, seed, r, before, all, domains, i);
    StorableAdvance(First(all, domains[..i]), AssignmentId(r, domains[i]), NewAssignment(c, p, env, seed, r, domains[i]));
  }

  lemma AssignedStart(before: Docket, open: set<int>, all: Docket, r: int, domains: seq<string>)
    ensures AssignedUpTo(before, open, all, r, domains, 0, true, before, open)
  {
    assert First(all, domains[..0]) == map[];
  }

  lemma AssignedAll(before: Docket, open: set<int>, all: Docket, r: int, domains: seq<string>, i: nat,
                    ok: bool, docket: Docket, unsettled: set<int>)
    requires AssignedUpTo(before, open, all, r, domains, i, ok, docket, unsettled) && (i == |domains| || !ok)
    requires forall k :: k in all ==> k.domain in domains
    ensures ok == AllStorable(all)
    ensures ok ==> docket == before + all && unsettled == if all == map[] then open else open + {r}
  {
    FirstStorable(all, domains, i);
    if ok {
      FullPrefix(domains);
      FirstAll(all, domains);
    }
  }

  lemma Installed(plan: Plan, c: Scene, p: Params, env: Env, r: int, drandRound: nat, randomness: string, added: Docket, after: Plan)
    requires p.Valid() && RoundFor(plan, c, p, env, r, drandRound, randomness) == added
    requires (r in plan.metas || c.now > 0) && AllStorable(added)
    requires after.calendar == AddRound(plan.calendar, r, added)
    requires var seed := SeedFor(c, env, r, drandRound, randomness);
      after.metas == if r in plan.metas then plan.metas
                     else plan.metas[r := RoundMeta(seed, c.now, |Eligible(c)|, drandRound, randomness)]
    ensures TryInstall(plan, c, p, env, r, drandRound, randomness) == Ok(after)
  {
  }

  lemma NotInstalled(plan: Plan, c: Scene, p: Params, env: Env, r: int, drandRound: nat, randomness: string, added: Docket)
    requires p.Valid() && RoundFor(plan, c, p, env, r, drandRound, randomness) == added
    requires (r !in plan.metas && c.now <= 0) || !AllStorable(added)
    ensures TryInstall(plan, c, p, env, r, drandRound, randomness) == Err(Invalid)
  {
  }

  /** A pass that stopped early met an assignment of the new round that cannot be stored. */
  lemma FirstStorable(all: Docket, domains: seq<string>, i: nat)
    requires i <= |domains| && forall k :: k in all ==> k.domain in domains
    ensures !AllStorable(First(all, domains[..i])) ==> !AllStorable(all)
    ensures i == |domains| && AllStorable(First(all, domains[..i])) ==> AllStorable(all)
  {
    if !AllStorable(First(all, domains[..i])) {
      var k :| k in First(all, domains[..i]) && !Storable(k, First(all, domains[..i])[k]);
      assert k in all && !Storable(k, all[k]);
    }
    if i == |domains| {
      FullPrefix(domains);
      FirstAll(all, domains);
    }
  }

  lemma FirstAll(all: Docket, domains: seq<string>)
    requires forall k :: k in all ==> k.domain in domains
    ensures First(all, domains) == all
  {
  }

  /** The view after assigning a round, put together from its parts. */
  lemma AssignedIs(s: State, env: Env, anchor: string, u: State)
    requires s.params.Valid()
    ensures var plan := Assigning.AssignNewRound(PlanOf(s), SceneOf(s, anchor), s.params, env, s.beacons);
      && (plan.Err? ==> N.AssignStep(s, env, anchor) == Err(plan.error))
      && (plan == Ok(PlanOf(u))
          && u == s.(assignments := u.assignments, unsettled := u.unsettled, lastRound := u.lastRound, metas := u.metas)
          ==> N.AssignStep(s, env, anchor) == Ok(u))
  {
  }

  lemma UpgradedIs(s: State, u: State)
    ensures !AllStorable(s.assignments) ==> N.UpgradeStep(s) == Err(Invalid)
    ensures u.params.Valid() && AllStorable(s.assignments) && CalendarOf(u) == Migrate(CalendarOf(s))
            && u == s.(params := s.params.(publisherMinRewardBps := DEFAULT_PARAMS.publisherMinRewardBps),
                       assignments := u.assignments, unsettled := u.unsettled) ==>
      N.UpgradeStep(s) == Ok(u)
  {
  }

  function RoundsAmong(ks: seq<AssignmentId>): set<int> {
    set k | k in ks :: k.round
  }

  lemma RoundsStep(open: set<int>, ks: seq<AssignmentId>, i: nat)
    requires i < |ks|
    ensures (open - RoundsAmong(ks[..i])) - {ks[i].round} == open - RoundsAmong(ks[..i + 1])
  {
    assert ks[..i + 1] == ks[..i] + [ks[i]];
  }

  lemma NothingMarked(docket: Docket, open: set<int>, ks: seq<AssignmentId>)
    ensures Marked(docket, docket, ks[..0]) && open - RoundsAmong(ks[..0]) == open
  {
  }

  lemma MarkedAll(docket: Docket, after: Docket, ks: seq<AssignmentId>)
    requires Marked(docket, after, ks) && Enumerates(ks, docket.Keys)
    ensures after == SettleAll(docket) && RoundsAmong(ks) == RoundsOf(docket)
  {
  }

  class Registry {
    const bank: BankKeeper
    const tokenomics: TokenomicsKeeper
    const verifiers: VerifiersKeeper

    var now: int
    var height: int
    var params: Params
    var websites: map<string, Website>
    var primary: map<string, string>
    var streaks: map<string, int>
    var slots: map<string, Slot>
    var leases: map<string, Lease>
    var slotSeq: nat
    var leaseSeq: nat
    var assignments: map<AssignmentId, Assignment>
    var unsettled: set<int>
    var lastRound: Option<int>
    var metas: map<int, RoundMeta>
    var beacons: map<nat, Beacon>
    var commits: map<VoteId, string>
    var submissions: map<VoteId, Submission>
    var penalties: map<string, Penalty>

    // History.
    ghost var gifts: Ledger
    ghost var commitLog: map<VoteId, CommitRecord>
    ghost var revealLog: map<VoteId, RevealRecord>
    ghost var tallies: map<AssignmentId, Stats>
    ghost var settlements: seq<int>

    /** All keepers share one bank. */
    predicate Wired() {
      tokenomics.bank == bank && verifiers.bank == bank
    }

    /** An empty chain over the given balances. */
    constructor (bank: BankKeeper, params: Params, bondParams: BondParams, now: int, height: int)
      requires params.Valid() && params.InRange() && 0 <= now <= MAX_TIME
      ensures Wired() && this.bank == bank && fresh(tokenomics) && fresh(verifiers)
      ensures N.Genesis(View())
    {
      this.bank := bank;
      tokenomics := new TokenomicsKeeper(bank);
      verifiers := new VerifiersKeeper(bank, bondParams);
      this.params, this.now, this.height := params, now, height;
      websites, primary, streaks := map[], map[], map[];
      slots, leases, slotSeq, leaseSeq := map[], map[], 0, 0;
      assignments, unsettled, lastRound, metas, beacons := map[], {}, None, map[], map[];
      commits, submissions, penalties := map[], map[], map[];
      gifts := bank.balances;
      commitLog, revealLog, tallies, settlements := map[], map[], map[], [];
    }

    ghost function Log(): History
      reads this, tokenomics, verifiers
    {
      History(gifts, verifiers.stranded, commitLog, revealLog, tallies, settlements, tokenomics.paid, tokenomics.burned)
    }

    /** The state of the state machine that the objects hold. */
    ghost function View(): State
      reads this, bank, tokenomics, verifiers
    {
      State(now, height, params, verifiers.params, bank.balances, websites, primary, streaks, slots, leases, slotSeq, leaseSeq,
            assignments, unsettled, lastRound, metas, beacons, commits, submissions, penalties, verifiers.bonds,
            tokenomics.funded, Log())
    }

    ghost function TheBook(): Book
      reads this, bank
    {
      Book(bank.balances, leases)
    }

    // Leases.

    method PayoutLease(id: string) returns (ok: bool)
      requires id in leases
      modifies this`leases, bank
      ensures ok == Payout(old(TheBook()), id, now).Ok?
      ensures ok ==> TheBook() == Payout(old(TheBook()), id, now).value
    {
      var lease := leases[id];
      var payout := lease.remaining;
      if payout > 0 {
        var sent := bank.SendCoins(REGISTRY, User(lease.publisher), lease.denom, payout);
        if !sent { return false; }
      }
      lease := lease.(paidOut := lease.paidOut + payout, remaining := 0, status := Completed, updatedAt := now,
                      paidThrough := lease.ends);
      leases := leases[id := lease];
      return true;
    }

    method RefundLease(id: string) returns (ok: bool)
      requires id in leases
      modifies this`leases, bank
      ensures ok == Refund(old(TheBook()), id, now).Ok?
      ensures ok ==> TheBook() == Refund(old(TheBook()), id, now).value
    {
      var lease := leases[id];
      if lease.remaining > 0 {
        var sent := bank.SendCoins(REGISTRY, User(lease.lessee), lease.denom, lease.remaining);
        if !sent { return false; }
      }
      leases := leases[id := lease.(remaining := 0, status := Violated, updatedAt := now, paidThrough := now)];
      return true;
    }

    /** One visit of settleLeases. */
    method SettleLease(id: string, ghost start: State) returns (err: Option<Error>)
      requires now == start.now && slots == start.slots && websites == start.websites
      modifies this`leases, bank
      ensures err == None ==> SettleOne(start, old(TheBook()), id) == Ok(TheBook())
      ensures err.Some? ==> SettleOne(start, old(TheBook()), id) == Err(err.value)
    {
      if id !in leases || leases[id].status != Active || now < leases[id].ends { return None; }
      var lease := leases[id];
      if lease.slotId !in slots { return Some(SlotMissing); }
      var slot := slots[lease.slotId];
      if slot.domain !in websites { return Some(WebsiteMissing); }
      var ok;
      if websites[slot.domain].cooldownUntil > now {
        ok := RefundLease(id);
      } else {
        ok := PayoutLease(id);
      }
      if !ok { return Some(InsufficientFunds); }
      return None;
    }

    method SettleEach(ids: seq<string>, ghost start: State) returns (err: Option<Error>)
      requires now == start.now && slots == start.slots && websites == start.websites
      modifies this`leases, bank
      ensures err == None ==> Fold(SettleStep(start), old(TheBook()), ids, |ids|) == Ok(TheBook())
      ensures err.Some? ==> Fold(SettleStep(start), old(TheBook()), ids, |ids|) == Err(err.value)
    {
      ghost var before := TheBook();
      err := None;
      var i: nat := 0;
      while i < |ids| && err == None
        invariant i <= |ids|
        invariant err == None ==> Fold(SettleStep(start), before, ids, i) == Ok(TheBook())
        invariant err.Some? ==> Fold(SettleStep(start), before, ids, i) == Err(err.value)
        decreases |ids| - i
      {
        FoldNext(SettleStep(start), before, ids, i, TheBook());
        err := SettleLease(ids[i], start);
        i := i + 1;
      }
      if err.Some? { FoldStaysErr(SettleStep(start), before, ids, i, |ids|); }
    }

    method SettleLeases() returns (err: Option<Error>)
      modifies this`leases, bank
      ensures err == None ==> LeaseSettlement.SettleLeases(old(View())) == Ok(View())
      ensures err.Some? ==> LeaseSettlement.SettleLeases(old(View())) == Err(err.value)
    {
      ghost var start := View();
      err := SettleEach(SortedStrings(leases.Keys), start);
    }

    /** activeLeasesForDomain. */
    method ActiveLeasesForDomain(domain: string) returns (ids: seq<string>)
      ensures ids == SortedStrings(OnAir(leases, slots, domain, now))
    {
      var all := SortedStrings(leases.Keys);
      ghost var keep := Airs(leases, slots, domain, now);
      EnumerationElems(all, leases.Keys);
      ids := [];
      var i := 0;
      while i < |all|
        invariant 0 <= i <= |all|
        invariant ids == Filter(all, keep, i)
      {
        var lease := leases[all[i]];
        FilterStep(all, keep, i);
        if lease.status == Active && lease.starts <= now <= lease.ends && lease.slotId in slots && slots[lease.slotId].domain == domain {
          ids := ids + [all[i]];
        }
        i := i + 1;
      }
      AirsSorted(leases, slots, domain, now);
    }

    method RefundEach(ids: seq<string>) returns (ok: bool)
      modifies this`leases, bank
      ensures ok == Fold(RefundStep(now), old(TheBook()), ids, |ids|).Ok?
      ensures ok ==> Fold(RefundStep(now), old(TheBook()), ids, |ids|) == Ok(TheBook())
      ensures !ok ==> Fold(RefundStep(now), old(TheBook()), ids, |ids|) == Err(InsufficientFunds)
    {
      ghost var before := TheBook();
      ok := true;
      var i: nat := 0;
      while i < |ids| && ok
        invariant i <= |ids|
        invariant ok ==> Fold(RefundStep(now), before, ids, i) == Ok(TheBook())
        invariant !ok ==> Fold(RefundStep(now), before, ids, i) == Err(InsufficientFunds)
        decreases |ids| - i
      {
        FoldNext(RefundStep(now), before, ids, i, TheBook());
        if ids[i] in leases { ok := RefundLease(ids[i]); }
        i := i + 1;
      }
      if !ok { FoldStaysErr(RefundStep(now), before, ids, i, |ids|); }
    }

    method ViolateActiveLeasesForDomain(domain: string) returns (err: Option<Error>)
      modifies this`leases, bank
      ensures err == None ==> ViolateLeases(old(TheBook()), slots, domain, now) == Ok(TheBook())
      ensures err.Some? ==> ViolateLeases(old(TheBook()), slots, domain, now) == Err(err.value)
    {
      var ids := ActiveLeasesForDomain(domain);
      var ok := RefundEach(ids);
      err := if ok then None else Some(InsufficientFunds);
    }

    // Market messages.

    method CreateSlot(m: SlotMsg) returns (err: Option<Error>)
      modifies this`slots, this`slotSeq
      ensures err == None ==> Market.CreateSlot(old(View()), m) == Ok(View())
      ensures err.Some? ==> Market.CreateSlot(old(View()), m) == Err(err.value)
    {
      if m.domain !in websites { return Some(NotFound); }
      var w := websites[m.domain];
      if w.owner != m.publisher { return Some(Unauthorized); }
      if w.status != Verified { return Some(PublisherNotVerified); }
      if w.cooldownUntil > now { return Some(InCooldown); }
      if m.rate == None { return Some(Invalid); }
      if m.title == "" { return Some(Invalid); }
      if m.denom == "" { return Some(Invalid); }
      if m.rate.value < 0 { return Some(Invalid); }
      if m.unit <= 0 { return Some(Invalid); }
      if m.minDuration <= 0 { return Some(Invalid); }
      if m.maxDuration <= 0 { return Some(Invalid); }
      if m.minDuration > m.maxDuration { return Some(Invalid); }
      slotSeq := slotSeq + 1;
      slots := slots[SlotId(slotSeq) :=
        Slot(m.publisher, m.domain, m.denom, m.rate.value, m.unit, m.minDuration, m.maxDuration, SLOT_PAUSED)];
      return None;
    }

    method UpdateSlotStatus(m: StatusMsg) returns (err: Option<Error>)
      modifies this`slots
      ensures err == None ==> Market.UpdateSlotStatus(old(View()), m) == Ok(View())
      ensures err.Some? ==> Market.UpdateSlotStatus(old(View()), m) == Err(err.value)
    {
      if m.slotId !in slots { return Some(NotFound); }
      if slots[m.slotId].publisher != m.publisher { return Some(Unauthorized); }
      if m.status == SLOT_UNSPECIFIED { return Some(Invalid); }
      slots := slots[m.slotId := slots[m.slotId].(status := m.status)];
      return None;
    }

    /** The scan of listLeasesBySlot for an active lease that intersects the requested interval. */
    method FindOverlap(slotId: string, starts: int, ends: int) returns (found: bool)
      ensures found <==> !NoOverlap(leases, slotId, starts, ends)
    {
      var all := SortedStrings(leases.Keys);
      EnumerationElems(all, leases.Keys);
      var i := 0;
      while i < |all|
        invariant 0 <= i <= |all|
        invariant forall j :: 0 <= j < i ==> !Clashes(leases[all[j]], slotId, starts, ends)
      {
        var l := leases[all[i]];
        if l.slotId == slotId && l.status == Active && starts < l.ends && ends > l.starts { return true; }
        i := i + 1;
      }
      NoClash(leases, all, slotId, starts, ends);
      return false;
    }

    /** The guards of LeaseSlot, in order. */
    method CheckLease(env: Env, m: LeaseMsg) returns (err: Option<Error>)
      ensures err == LeaseRefusal(View(), env, m)
    {
      if m.slotId !in slots { return Some(NotFound); }
      var slot := slots[m.slotId];
      if slot.status != SLOT_LISTED { return Some(Invalid); }
      if slot.domain !in websites { return Some(NotFound); }
      var w := websites[slot.domain];
      if w.status != Verified { return Some(PublisherNotVerified); }
      var starts := if m.starts <= 0 then now else m.starts;
      if starts < now { return Some(Invalid); }
      if w.cooldownUntil > now && starts < w.cooldownUntil { return Some(InCooldown); }
      if m.duration <= 0 || slot.unit <= 0 || m.duration % slot.unit != 0 { return Some(Invalid); }
      if m.duration < slot.minDuration || m.duration > slot.maxDuration { return Some(Invalid); }
      var ends := Wrap64(starts + m.duration);
      if ends <= starts { return Some(Invalid); }
      if !env.validUrl(m.url) { return Some(Invalid); }
      var overlap := FindOverlap(m.slotId, starts, ends);
      if overlap { return Some(Overlap); }
      if !IsAddress(m.lessee) || starts <= 0 { return Some(Invalid); }
      return None;
    }

    method LeaseSlot(env: Env, m: LeaseMsg) returns (err: Option<Error>)
      modifies this`leases, this`leaseSeq, bank
      ensures err == None ==> Market.LeaseSlot(old(View()), env, m) == Ok(View())
      ensures err.Some? ==> Market.LeaseSlot(old(View()), env, m) == Err(err.value)
    {
      err := CheckLease(env, m);
      if err.Some? { return; }
      var slot := slots[m.slotId];
      var starts := if m.starts <= 0 then now else m.starts;
      err := Escrow(m, slot, starts, Wrap64(starts + m.duration), LeasePrice(slot, m.duration));
    }

    /** Move the price into escrow and store the lease. */
    method Escrow(m: LeaseMsg, slot: Slot, starts: int, ends: int, total: nat) returns (err: Option<Error>)
      modifies this`leases, this`leaseSeq, bank
      ensures err.Some? <==> total > Balance(old(bank.balances), User(m.lessee), slot.denom)
      ensures err.Some? ==> err == Some(InsufficientFunds)
      ensures err == None ==>
        && leaseSeq == old(leaseSeq) + 1
        && leases == old(leases)[LeaseId(leaseSeq) :=
             Lease(m.slotId, slot.publisher, m.lessee, starts, ends, slot.denom, total, total, 0, Active, now, 0)]
        && bank.balances == if total > 0 then Send(old(bank.balances), User(m.lessee), REGISTRY, slot.denom, total).value
                            else old(bank.balances)
    {
      if total > 0 {
        var ok := bank.SendCoins(User(m.lessee), REGISTRY, slot.denom, total);
        if !ok { return Some(InsufficientFunds); }
      }
      leaseSeq := leaseSeq + 1;
      leases := leases[LeaseId(leaseSeq) :=
        Lease(m.slotId, slot.publisher, m.lessee, starts, ends, slot.denom, total, total, 0, Active, now, 0)];
      return None;
    }

    // Registration and votes.

    method RegisterPublisher(env: Env, m: G.RegisterMsg) returns (err: Option<Error>)
      modifies this`websites, this`primary
      ensures err == None ==> G.RegisterPublisher(old(SitesOf(View())), env, height, m) == Ok(SitesOf(View()))
      ensures err.Some? ==> G.RegisterPublisher(old(SitesOf(View())), env, height, m) == Err(err.value)
    {
      if !G.WellFormed(m) { return Some(Invalid); }
      var domain := C.Normalize(m.domain);
      if domain in websites {
        var existing := websites[domain];
        if existing.pendingOwner != "" && m.owner != existing.pendingOwner && m.owner != existing.owner { return Some(Duplicate); }
        existing := existing.(pendingOwner := m.owner, pendingReferrer := Trim(m.referrer));
        websites := websites[domain := existing];
        return None;
      }
      if domain == "" || !env.validDomain(domain) || !m.uriOk { return Some(Invalid); }
      if env.primaryOf(domain) in primary { return Some(Duplicate); }
      websites := websites[domain := Website(m.owner, Pending, Trim(m.referrer), height, 0, 0, "", "")];
      primary := primary[env.primaryOf(domain) := domain];
      return None;
    }

    ghost function Ballots(): Ballots
      reads this
    {
      Votes.Ballots(commits, submissions, commitLog, revealLog)
    }

    method SubmitVerificationCommit(m: CommitMsg) returns (err: Option<Error>)
      modifies this`commits, this`commitLog
      ensures err == None ==> SubmitCommit(old(Ballots()), assignments, params, now, m) == Ok(Ballots())
      ensures err.Some? ==> SubmitCommit(old(Ballots()), assignments, params, now, m) == Err(err.value)
    {
      if !ValidCommit(m) { return Some(Invalid); }
      var domain := C.Normalize(m.domain);
      var k, v := AssignmentId(m.round, domain), VoteId(m.round, domain, m.verifier);
      if k !in assignments { return Some(NotFound); }
      var a := assignments[k];
      if a.finalized { return Some(WrongWindow); }
      if m.verifier !in a.verifiers { return Some(Unauthorized); }
      if now < a.start || now > a.start + params.commitWindow { return Some(WrongWindow); }
      if v in commits { return Some(Duplicate); }
      if v in submissions { return Some(Duplicate); }
      var hash := Lower(Trim(m.hash));
      commits := commits[v := hash];
      commitLog := commitLog[v := CommitRecord(now, hash)];
      return None;
    }

    method RevealVerification(env: Env, m: C.Reveal) returns (err: Option<Error>)
      modifies this`commits, this`submissions, this`revealLog
      ensures err == None ==> RevealVote(old(Ballots()), assignments, params, env, now, m) == Ok(Ballots())
      ensures err.Some? ==> RevealVote(old(Ballots()), assignments, params, env, now, m) == Err(err.value)
    {
      if !m.Valid(env.sha) { return Some(Invalid); }
      var domain := C.Normalize(m.domain);
      var k, v := AssignmentId(m.round, domain), VoteId(m.round, domain, m.verifier);
      if k !in assignments { return Some(NotFound); }
      var a := assignments[k];
      if a.finalized { return Some(WrongWindow); }
      if m.verifier !in a.verifiers { return Some(Unauthorized); }
      if now <= a.start + params.commitWindow { return Some(WrongWindow); }
      if now > a.deadline { return Some(WrongWindow); }
      if v in submissions { return Some(Duplicate); }
      if v !in commits { return Some(NotFound); }
      if !m.Opens(env.sha, a.owner, commits[v]) { return Some(CommitMismatch); }
      if now <= 0 { return Some(Invalid); }
      submissions := submissions[v := SubmissionOf(m, now)];
      commits := commits - {v};
      revealLog := revealLog[v := RevealRecord(now, m)];
      return None;
    }

    method SubmitDrandBeacon(env: Env, m: BeaconMsg) returns (err: Option<Error>)
      requires params.Valid()
      modifies this`beacons
      ensures err == None ==> SubmitBeacon(old(beacons), params, env, now, lastRound, m) == Ok(beacons)
      ensures err.Some? ==> SubmitBeacon(old(beacons), params, env, now, lastRound, m) == Err(err.value)
    {
      if PendingBeacon(params, now, lastRound) != Ok(Some(m.round)) { return Some(Invalid); }
      if m.round in beacons { return Some(Duplicate); }
      var randomness, signature := Lower(Trim(m.randomness)), Lower(Trim(m.signature));
      if |randomness| != 64 || !HexText(randomness) { return Some(Invalid); }
      if signature == "" || !HexText(signature) { return Some(Invalid); }
      if !env.beaconOk(m.round, randomness, signature) { return Some(Invalid); }
      if now <= 0 || !IsAddress(Trim(m.submitter)) { return Some(Invalid); }
      beacons := beacons[m.round := Beacon(randomness, now, Trim(m.submitter))];
      return None;
    }

    // Finalization.

    ghost function TheEstate(): Estate
      reads this, bank
    {
      Estate(websites, streaks, slots, TheBook())
    }

    method CollectSlots(domain: string, owner: string) returns (ids: seq<string>)
      ensures ids == Filter(SortedStrings(slots.Keys), OwnedOn(slots, domain, owner), |SortedStrings(slots.Keys)|)
    {
      var all := SortedStrings(slots.Keys);
      EnumerationElems(all, slots.Keys);
      ghost var keep := OwnedOn(slots, domain, owner);
      ids := [];
      var i := 0;
      while i < |all|
        invariant 0 <= i <= |all|
        invariant ids == Filter(all, keep, i)
      {
        var slot := slots[all[i]];
        FilterStep(all, keep, i);
        if slot.domain == domain && slot.publisher == owner { ids := ids + [all[i]]; }
        i := i + 1;
      }
    }

    method RewriteSlots(ids: seq<string>, to: string)
      requires forall i :: 0 <= i < |ids| ==> ids[i] in slots
      modifies this`slots
      ensures Rewritten(old(slots), slots, ids, to)
    {
      ghost var before := slots;
      var i := 0;
      while i < |ids|
        invariant 0 <= i <= |ids|
        invariant Rewritten(before, slots, ids[..i], to)
      {
        var id := ids[i];
        RewriteStep(before, slots, ids, i, to);
        slots := slots[id := slots[id].(publisher := to)];
        i := i + 1;
      }
      FullPrefix(ids);
    }

    /** Collect the slots first, then rewrite them. */
    method TransferSlotsForDomain(domain: string, from: string, to: string)
      modifies this`slots
      ensures slots == Transfer(old(slots), domain, from, to)
    {
      var ids := CollectSlots(domain, from);
      CollectedSlots(slots, domain, from);
      assert forall i :: 0 <= i < |ids| ==> ids[i] in ids;
      RewriteSlots(ids, to);
    }

    method SetFailureStreak(domain: string, count: int)
      modifies this`streaks
      ensures streaks == SetStreak(old(streaks), domain, count)
    {
      if count <= 0 { streaks := streaks - {domain}; } else { streaks := streaks[domain := count]; }
    }

    method IncrementFailureStreak(domain: string) returns (next: int)
      modifies this`streaks
      ensures next == NextStreak(Streak(old(streaks), domain))
      ensures streaks == SetStreak(old(streaks), domain, next)
    {
      next := if domain in streaks then streaks[domain] else 0;
      next := if next >= MAX_INT32 then 0 else next + 1;
      SetFailureStreak(domain, next);
    }

    /** A failed quorum: count the failure and demote. */
    method DemotePublisher(domain: string)
      requires domain in websites
      modifies this`websites, this`streaks
      ensures TheEstate() == Demote(old(TheEstate()), domain, params)
    {
      var w := websites[domain];
      if w.status == Verified || w.status == Pending {
        var failures := IncrementFailureStreak(domain);
        if w.status == Verified {
          w := w.(status := if failures >= params.RevokeThreshold() then Revoked else Pending);
        }
      }
      websites := websites[domain := w];
    }

    method PunishPublisher(domain: string) returns (err: Option<Error>)
      requires domain in websites
      modifies this`websites, this`leases, bank
      ensures err == None ==> Punish(old(TheEstate()), domain, params, now) == Ok(TheEstate())
      ensures err.Some? ==> Punish(old(TheEstate()), domain, params, now) == Err(err.value)
    {
      var active := ActiveLeasesForDomain(domain);
      EmptyEnumeration(active, OnAir(leases, slots, domain, now));
      var w := websites[domain];
      if |active| == 0 || w.cooldownUntil > now { return None; }
      var count := w.cooldownCount + 1;
      var duration := ComputeCooldownSeconds(params.cooldownBase, count);
      if duration <= 0 { return Some(CooldownOverflow); }
      var until := Wrap64(now + duration);
      if until < 0 { return Some(CooldownOverflow); }
      websites := websites[domain := w.(cooldownCount := count, cooldownUntil := until)];
      err := ViolateActiveLeasesForDomain(domain);
    }

    /** The effect of the verdict on the website, its slots and its leases. */
    method ApplyVerdict(domain: string, a: Assignment, t: Stats) returns (err: Option<Error>)
      modifies this`websites, this`streaks, this`slots, this`leases, bank
      ensures err == None ==> Judge(old(TheEstate()), domain, a, t, params, now, height) == Ok(TheEstate())
      ensures err.Some? ==> Judge(old(TheEstate()), domain, a, t, params, now, height) == Err(err.value)
    {
      if domain !in websites { return None; }
      var w := websites[domain];
      if a.reregistration {
        if w.pendingOwner == "" || w.pendingOwner != a.owner { return None; }
        if MajorityPass(t) {
          TransferSlotsForDomain(domain, w.owner, w.pendingOwner);
          websites := websites[domain := Website(w.pendingOwner, Verified, w.pendingReferrer, height, 0, 0, "", "")];
          SetFailureStreak(domain, 0);
        } else if HasQuorum(t) {
          websites := websites[domain := w.(pendingOwner := "", pendingReferrer := "")];
        }
      } else if MajorityPass(t) {
        websites := websites[domain := w.(status := Verified, cooldownUntil := 0, cooldownCount := 0)];
        SetFailureStreak(domain, 0);
      } else if HasQuorum(t) {
        DemotePublisher(domain);
        err := PunishPublisher(domain);
        return;
      }
      return None;
    }

    method ApplyVerifierPenalty(v: string)
      modifies this`penalties
      ensures PenaltyOf(penalties, v) == Kept(Struck(PenaltyOf(old(penalties), v), params, now))
      ensures penalties == SetPenalty(old(penalties), v, Struck(PenaltyOf(old(penalties), v), params, now))
    {
      var count, until := 0, 0;
      if v in penalties { count, until := penalties[v].count, penalties[v].until; }
      count := if count >= MAX_INT32 then -MAX_INT32 - 1 else count + 1;
      var threshold := if params.suspendThreshold > 0 then params.suspendThreshold else 3;
      var rounds := if params.suspendRounds > 0 then params.suspendRounds else 3;
      if count >= threshold {
        var duration := Wrap64(params.roundInterval * rounds);
        if duration < 60 { duration := 60; }
        var end := Wrap64(now + duration);
        if end > until { until := end; }
      }
      if count <= 0 && until <= 0 {
        penalties := penalties - {v};
      } else {
        penalties := penalties[v := Penalty(count, until)];
      }
    }

    method PenalizeVerifiers(k: AssignmentId, verifiers: seq<string>, t: Stats)
      modifies this`penalties
      ensures penalties == PenaltiesAfter(old(penalties), submissions, k, t, verifiers, |verifiers|, params, now)
    {
      ghost var before := penalties;
      var i := 0;
      while i < |verifiers|
        invariant 0 <= i <= |verifiers|
        invariant penalties == PenaltiesAfter(before, submissions, k, t, verifiers, i, params, now)
      {
        var id := VoteId(k.round, k.domain, verifiers[i]);
        if id !in submissions || (HasQuorum(t) && submissions[id].passed != MajorityPass(t)) {
          ApplyVerifierPenalty(verifiers[i]);
        } else {
          penalties := penalties - {verifiers[i]};
        }
        i := i + 1;
      }
    }

    /** SetAssignment validates the assignment, stores it and indexes its round while it is unsettled. */
    method SetAssignment(k: AssignmentId, a: Assignment) returns (ok: bool)
      modifies this`assignments, this`unsettled
      ensures ok == Storable(k, a)
      ensures assignments == if ok then old(assignments)[k := a] else old(assignments)
      ensures unsettled == if ok && !a.settled then old(unsettled) + {k.round} else old(unsettled)
    {
      ok := false;
      if k.round <= 0 || k.domain == "" || a.start <= 0 || a.deadline <= 0 || a.deadline < a.start { return; }
      if !(forall i :: 0 <= i < |a.verifiers| ==> IsAddress(a.verifiers[i])) { return; }
      if a.owner != "" && !IsAddress(a.owner) { return; }
      if a.owner == "" && a.reregistration { return; }
      assignments := assignments[k := a];
      if !a.settled { unsettled := unsettled + {k.round}; }
      ok := true;
    }

    ghost function TheCalendar(): Calendar
      reads this
    {
      Calendar(assignments, unsettled, lastRound, settlements)
    }

    /** A stale candidate earns nothing. */
    method IsVerified(domain: string, a: Assignment, t: Stats) returns (verified: bool)
      ensures verified == Earned(TheEstate(), domain, a, t)
    {
      verified := MajorityPass(t);
      if a.reregistration && domain in websites && (websites[domain].pendingOwner == "" || websites[domain].pendingOwner != a.owner) {
        verified := false;
      }
    }

    /** The verdict, the penalties and the closing of one expired assignment. */
    method FinalizeExpired(k: AssignmentId, a: Assignment, t: Stats) returns (err: Option<Error>)
      modifies this`websites, this`streaks, this`slots, this`leases, this`penalties, this`assignments, this`unsettled, this`tallies, bank
      ensures err == None ==>
        && Judge(old(TheEstate()), k.domain, a, t, params, now, height) == Ok(TheEstate())
        && penalties == PenaltiesAfter(old(penalties), submissions, k, t, a.verifiers, |a.verifiers|, params, now)
        && assignments == old(assignments)[k := Finished(a, now, Earned(old(TheEstate()), k.domain, a, t))]
        && unsettled == (if a.settled then old(unsettled) else old(unsettled) + {k.round})
        && tallies == old(tallies)[k := t] && Storable(k, a)
      ensures err.Some? ==> FailedWith(Judge(old(TheEstate()), k.domain, a, t, params, now, height), k, a, err.value)
    {
      var verified := IsVerified(k.domain, a, t);
      err := ApplyVerdict(k.domain, a, t);
      if err.Some? { return; }
      PenalizeVerifiers(k, a.verifiers, t);
      var ok := SetAssignment(k, Finished(a, now, verified));
      if !ok { return Some(Invalid); }
      tallies := tallies[k := t];
    }

    /** Finalization leaves every other field alone. */
    twostate lemma FinalizeFrame()
      requires unchanged(this`now, this`height, this`params, this`primary, this`slotSeq, this`leaseSeq, this`lastRound, this`metas,
                         this`beacons, this`commits, this`submissions, this`gifts, this`commitLog, this`revealLog,
                         this`settlements, tokenomics, verifiers)
      ensures View() == old(View()).(websites := websites, streaks := streaks, slots := slots, bank := bank.balances,
                                     leases := leases, penalties := penalties, assignments := assignments,
                                     unsettled := unsettled, log := old(Log()).(tallies := tallies))
    {
    }

    method CloseExpired(k: AssignmentId, a: Assignment, t: Stats) returns (err: Option<Error>)
      modifies this`websites, this`streaks, this`slots, this`leases, this`penalties, this`assignments, this`unsettled, this`tallies, bank
      ensures View() == old(View()).(websites := websites, streaks := streaks, slots := slots, bank := bank.balances,
                                     leases := leases, penalties := penalties, assignments := assignments,
                                     unsettled := unsettled, log := old(Log()).(tallies := tallies))
      ensures err == None ==> Judge(old(TheEstate()), k.domain, a, t, params, now, height) == Ok(TheEstate())
      ensures err.Some? ==> FailedWith(Judge(old(TheEstate()), k.domain, a, t, params, now, height), k, a, err.value)
      ensures err == None ==>
        && Storable(k, a)
        && penalties == PenaltiesAfter(old(penalties), submissions, k, t, a.verifiers, |a.verifiers|, params, now)
        && assignments == old(assignments)[k := Finished(a, now, Earned(old(TheEstate()), k.domain, a, t))]
        && unsettled == (if a.settled then old(unsettled) else old(unsettled) + {k.round})
        && tallies == old(tallies)[k := t]
    {
      err := FinalizeExpired(k, a, t);
      FinalizeFrame();
    }

    /** computeSimilarRoundStats over the stored reveals. */
    method CountVotes(k: AssignmentId, a: Assignment) returns (t: Stats)
      ensures t == TallyOf(submissions, k, a)
    {
      var cast := ListSubmissions(submissions, k);
      t := ComputeSimilarRoundStats(|a.verifiers|, cast);
      LoopsComputeTheSame(|a.verifiers|, cast, cast, t);
    }

    method FinalizeAssignment(k: AssignmentId) returns (err: Option<Error>)
      modifies this`websites, this`streaks, this`slots, this`leases, this`penalties, this`assignments, this`unsettled, this`tallies, bank
      ensures err == None ==> FinalizeOne(old(View()), k) == Ok(View())
      ensures err.Some? ==> FinalizeOne(old(View()), k) == Err(err.value)
    {
      if k !in assignments || assignments[k].finalized || assignments[k].deadline > now { return None; }
      ghost var s := View();
      var a := assignments[k];
      var t := CountVotes(k, a);
      err := CloseExpired(k, a, t);
      FinalizeOneIs(s, k, a, t, View());
    }

    method FinalizeEach(ks: seq<AssignmentId>) returns (err: Option<Error>)
      modifies this`websites, this`streaks, this`slots, this`leases, this`penalties, this`assignments, this`unsettled, this`tallies, bank
      ensures err == None ==> Fold(FinalizeOne, old(View()), ks, |ks|) == Ok(View())
      ensures err.Some? ==> Fold(FinalizeOne, old(View()), ks, |ks|) == Err(err.value)
    {
      ghost var before := View();
      err := None;
      var i: nat := 0;
      while i < |ks| && err == None
        invariant i <= |ks|
        invariant err == None ==> Fold(FinalizeOne, before, ks, i) == Ok(View())
        invariant err.Some? ==> Fold(FinalizeOne, before, ks, i) == Err(err.value)
        decreases |ks| - i
      {
        FoldNext(FinalizeOne, before, ks, i, View());
        err := FinalizeAssignment(ks[i]);
        i := i + 1;
      }
      if err.Some? { FoldStaysErr(FinalizeOne, before, ks, i, |ks|); }
    }

    method FinalizeAssignments() returns (err: Option<Error>)
      modifies this`websites, this`streaks, this`slots, this`leases, this`penalties, this`assignments, this`unsettled, this`tallies, bank
      ensures err == None ==> Finalization.FinalizeAssignments(old(View())) == Ok(View())
      ensures err.Some? ==> Finalization.FinalizeAssignments(old(View())) == Err(err.value)
    {
      err := FinalizeEach(SortedAssignments(assignments.Keys));
    }

    // Settlement.

    ghost function TheRecords(): P.Records
      reads this, verifiers
    {
      P.Records(assignments, submissions, websites, verifiers.bonds)
    }

    /** The claim of one verified assignment, sent to the website's owner. */
    method PayPublisher(k: AssignmentId, base: nat, ghost x: P.Records) returns (ok: bool, claim: nat)
      requires Wired() && x == TheRecords()
      modifies tokenomics`paid, bank
      ensures ok <==> Paid(old(bank.balances), P.PublisherPayment(x, params, k, base)).Some?
      ensures ok ==>
        && Paid(old(bank.balances), P.PublisherPayment(x, params, k, base)) == Some(bank.balances)
        && claim == SumPayments(P.PublisherPayment(x, params, k, base)) && tokenomics.paid == old(tokenomics.paid) + claim
    {
      if k !in assignments || k.domain !in websites { return true, 0; }
      claim := P.Claim(P.Records(assignments, submissions, websites, verifiers.bonds), params, k, base);
      if claim == 0 { return true, 0; }
      SendAllAppend(bank.balances, TOKENOMICS, REWARD_DENOM, [], Payment(websites[k.domain].owner, claim));
      ok := tokenomics.SendFromPool(websites[k.domain].owner, claim);
    }

    method PayPublishers(active: seq<AssignmentId>, base: nat, ghost x: P.Records) returns (ok: bool, total: nat)
      requires Wired() && x == TheRecords()
      modifies tokenomics`paid, bank
      ensures ok <==> Paid(old(bank.balances), P.PublisherPayments(x, params, active, base)).Some?
      ensures ok ==>
        && Paid(old(bank.balances), P.PublisherPayments(x, params, active, base)) == Some(bank.balances)
        && total == SumPayments(P.PublisherPayments(x, params, active, base)) && tokenomics.paid == old(tokenomics.paid) + total
    {
      ghost var before := bank.balances;
      total := 0;
      var i := 0;
      while i < |active|
        invariant 0 <= i <= |active|
        invariant Paid(before, P.PublisherPayments(x, params, active[..i], base)) == Some(bank.balances)
        invariant total == SumPayments(P.PublisherPayments(x, params, active[..i], base))
        invariant tokenomics.paid == old(tokenomics.paid) + total
      {
        PublisherPaymentsStep(before, x, params, active, base, i);
        var claim;
        ok, claim := PayPublisher(active[i], base, x);
        if !ok {
          PublisherPaymentsFail(before, x, params, active, base, i + 1);
          return;
        }
        total := total + claim;
        i := i + 1;
      }
      FullPrefix(active);
      ok := true;
    }

    /** The payment loop of payVerifierAssignmentRewards; a missing entry is the nil-amount panic. */
    method PayEach(successful: seq<string>, payouts: map<string, int>) returns (ok: bool, sent: nat)
      requires Wired() && R.AllPositive(payouts)
      modifies tokenomics`paid, bank
      ensures ok ==> P.Defined(successful, payouts)
      ensures P.Defined(successful, payouts) ==>
        (ok <==> SendAll(old(bank.balances), TOKENOMICS, REWARD_DENOM, P.PayList(successful, payouts)).Some?)
      ensures ok ==>
        && SendAll(old(bank.balances), TOKENOMICS, REWARD_DENOM, P.PayList(successful, payouts)) == Some(bank.balances)
        && sent == SumPayments(P.PayList(successful, payouts)) && tokenomics.paid == old(tokenomics.paid) + sent
    {
      ghost var before := bank.balances;
      ok, sent := true, 0;
      var i: nat := 0;
      while i < |successful| && ok && successful[i] in payouts
        invariant i <= |successful| && P.Defined(successful[..i], payouts)
        invariant ok ==> SendAll(before, TOKENOMICS, REWARD_DENOM, P.PayList(successful[..i], payouts)) == Some(bank.balances)
        invariant ok ==> sent == SumPayments(P.PayList(successful[..i], payouts)) && tokenomics.paid == old(tokenomics.paid) + sent
        invariant !ok ==> SendAll(before, TOKENOMICS, REWARD_DENOM, P.PayList(successful[..i], payouts)) == None
        decreases |successful| - i
      {
        PayListStep(before, successful, payouts, i);
        ok := tokenomics.SendFromPool(successful[i], payouts[successful[i]]);
        if ok { sent := sent + payouts[successful[i]]; }
        i := i + 1;
      }
      if !ok {
        if P.Defined(successful, payouts) {
          PayListStart(successful, payouts, i);
          PrefixFails(before, P.PayList(successful[..i], payouts), P.PayList(successful, payouts));
        }
      } else if i < |successful| {
        ok := false;
      } else {
        FullPrefix(successful);
      }
    }

    /** payVerifierAssignmentRewards. */
    method PayVerifiers(k: AssignmentId, total: nat, ghost x: P.Records) returns (ok: bool, sent: nat)
      requires Wired() && x == TheRecords()
      modifies tokenomics`paid, bank
      ensures ok <==> Delivered(old(bank.balances), P.VerifierPayments(x, params, k, total)).Some?
      ensures ok ==>
        && Delivered(old(bank.balances), P.VerifierPayments(x, params, k, total)) == Some(bank.balances)
        && sent == SumPayments(P.VerifierPayments(x, params, k, total).value) && tokenomics.paid == old(tokenomics.paid) + sent
    {
      var successful := P.Successful(submissions, k);
      if total == 0 || successful == [] { return true, 0; }
      SplitPayments(x, params, k, total);
      var payouts := SplitAmong(successful, total, x);
      ok, sent := PayEach(successful, payouts);
    }

    /** The payout map of one assignment: base shares plus shares by bond and referrals. */
    method SplitAmong(successful: seq<string>, total: nat, ghost x: P.Records) returns (payouts: map<string, int>)
      requires x == TheRecords() && total > 0 && successful != []
      ensures payouts == R.SplitPools(R.BasePool(total, params.BaseShareBps()), R.WeightedPool(total, params.BaseShareBps()),
                                      successful, P.Weights(x, successful)).payouts
    {
      var weights := P.Weights(P.Records(assignments, submissions, websites, verifiers.bonds), successful);
      var remaining;
      payouts, remaining := R.SplitVerifierAssignmentRewards(total, successful, weights, params.BaseShareBps());
    }

    method PayAllVerifiers(active: seq<AssignmentId>, per: nat, ghost x: P.Records) returns (ok: bool, total: nat)
      requires Wired() && x == TheRecords()
      modifies tokenomics`paid, bank
      ensures ok <==> Delivered(old(bank.balances), P.AllVerifierPayments(x, params, active, per)).Some?
      ensures ok ==>
        && Delivered(old(bank.balances), P.AllVerifierPayments(x, params, active, per)) == Some(bank.balances)
        && total == SumPayments(P.AllVerifierPayments(x, params, active, per).value)
        && tokenomics.paid == old(tokenomics.paid) + total
    {
      ghost var before := bank.balances;
      total := 0;
      var i := 0;
      while i < |active|
        invariant 0 <= i <= |active|
        invariant Delivered(before, P.AllVerifierPayments(x, params, active[..i], per)) == Some(bank.balances)
        invariant total == SumPayments(P.AllVerifierPayments(x, params, active[..i], per).value)
        invariant tokenomics.paid == old(tokenomics.paid) + total
      {
        VerifierPaymentsStep(before, x, params, active, per, i);
        var sent;
        ok, sent := PayVerifiers(active[i], per, x);
        if !ok {
          VerifierPaymentsFail(before, x, params, active, per, i + 1);
          return;
        }
        total := total + sent;
        i := i + 1;
      }
      FullPrefix(active);
      ok := true;
    }

    method CollectVerified(ks: seq<AssignmentId>) returns (active: seq<AssignmentId>)
      ensures active == P.Verified(assignments, ks)
    {
      active := [];
      var i := 0;
      while i < |ks|
        invariant 0 <= i <= |ks|
        invariant active == P.Verified(assignments, ks[..i])
      {
        assert ks[..i + 1][..i] == ks[..i];
        if ks[i] in assignments && assignments[ks[i]].verified { active := active + [ks[i]]; }
        i := i + 1;
      }
      FullPrefix(ks);
    }

    method SpendOnPublishers(active: seq<AssignmentId>, base: nat, pool: nat, ghost x: P.Records) returns (ok: bool)
      requires Wired() && x == TheRecords()
      requires SumPayments(P.PublisherPayments(x, params, active, base)) <= pool
      modifies tokenomics`paid, tokenomics`burned, bank
      ensures ok == P.Spend(old(tokenomics.Treasury()), P.PublisherPayments(x, params, active, base), pool).Ok?
      ensures ok ==> tokenomics.Treasury() == P.Spend(old(tokenomics.Treasury()), P.PublisherPayments(x, params, active, base), pool).value
    {
      var total;
      ok, total := PayPublishers(active, base, x);
      if ok { ok := tokenomics.BurnFromPool(pool - total); }
    }

    method SpendOnVerifiers(active: seq<AssignmentId>, per: nat, pool: nat, ghost x: P.Records) returns (ok: bool)
      requires Wired() && x == TheRecords()
      requires P.AllVerifierPayments(x, params, active, per).Ok? ==> SumPayments(P.AllVerifierPayments(x, params, active, per).value) <= pool
      modifies tokenomics`paid, tokenomics`burned, bank
      ensures ok ==> P.AllVerifierPayments(x, params, active, per).Ok?
      ensures P.AllVerifierPayments(x, params, active, per).Ok? ==>
        ok == P.Spend(old(tokenomics.Treasury()), P.AllVerifierPayments(x, params, active, per).value, pool).Ok?
      ensures ok ==>
        tokenomics.Treasury() == P.Spend(old(tokenomics.Treasury()), P.AllVerifierPayments(x, params, active, per).value, pool).value
    {
      var total;
      ok, total := PayAllVerifiers(active, per, x);
      if ok { ok := tokenomics.BurnFromPool(pool - total); }
    }

    /** Both pools of round r: pay and burn, publishers first. */
    method PayRound(r: int, pools: E.Pools, ghost x: P.Records) returns (ok: bool)
      requires Wired() && x == TheRecords()
      modifies tokenomics`paid, tokenomics`burned, bank
      ensures ok == P.PayRound(old(tokenomics.Treasury()), x, params, r, pools).Ok?
      ensures ok ==> tokenomics.Treasury() == P.PayRound(old(tokenomics.Treasury()), x, params, r, pools).value
    {
      var ks := SortedAssignments(RoundKeys(assignments, r));
      var active := CollectVerified(ks);
      P.PublisherBatchFits(x, params, r, pools.publisher);
      ok := SpendOnPublishers(active, P.Share(pools.publisher, |active|), pools.publisher, x);
      if !ok { return; }
      if P.VerifierBatch(x, params, r, pools.verifier).Ok? { P.VerifierBatchFits(x, params, r, pools.verifier); }
      ok := SpendOnVerifiers(active, P.Share(pools.verifier, |ks|), pools.verifier, x);
    }

    method SettlePayments(r: int, ghost x: P.Records) returns (ok: bool)
      requires Wired() && x == TheRecords() && params.roundInterval > 0
      modifies tokenomics, bank
      ensures ok == P.SettlePayments(old(tokenomics.Treasury()), x, params, r).Ok?
      ensures ok ==> tokenomics.Treasury() == P.SettlePayments(old(tokenomics.Treasury()), x, params, r).value
    {
      var pools := E.SettlementPools(params);
      if pools == None { return false; }
      tokenomics.EnsureEmissionPool(E.Target(params));
      ok := PayRound(r, pools.value, x);
    }

    /** markVerificationRoundRewardsSettled. */
    method MarkRewardsSettled(r: int) returns (ok: bool)
      modifies this`assignments, this`unsettled
      ensures ok == T.RoundStorable(old(assignments), r)
      ensures ok ==> assignments == Settle(old(assignments), r) && unsettled == old(unsettled) - {r}
    {
      ghost var before := assignments;
      var ks := SortedAssignments(RoundKeys(assignments, r));
      EnumerationElems(ks, RoundKeys(assignments, r));
      ok := MarkEach(ks);
      StorableRound(before, ks, r);
      if ok {
        MarkedRound(before, assignments, ks, r);
        unsettled := unsettled - {r};
      }
    }

    /** Store the given assignments again as settled; the index does not change. */
    method MarkEach(ks: seq<AssignmentId>) returns (ok: bool)
      requires forall i :: 0 <= i < |ks| ==> ks[i] in assignments
      modifies this`assignments, this`unsettled
      ensures ok == StorableUpTo(old(assignments), ks, |ks|)
      ensures ok ==> Marked(old(assignments), assignments, ks) && unsettled == old(unsettled)
    {
      ghost var before := assignments;
      ok := true;
      NothingMarked(before, unsettled, ks);
      var i: nat := 0;
      while i < |ks| && ok
        invariant i <= |ks|
        invariant ok == StorableUpTo(before, ks, i)
        invariant ok ==> Marked(before, assignments, ks[..i]) && unsettled == old(unsettled)
        decreases |ks| - i
      {
        MarkStep(before, assignments, ks, i);
        StorableStep(before, assignments, ks, i);
        ok := SetAssignment(ks[i], assignments[ks[i]].(settled := true));
        i := i + 1;
      }
      if ok { FullPrefix(ks); }
    }

    method DecideRound(r: int) returns (d: Decision)
      ensures d == Decide(assignments, r)
    {
      var ks := SortedAssignments(RoundKeys(assignments, r));
      EnumerationElems(ks, RoundKeys(assignments, r));
      var allFinalized, settledCount := CountRound(assignments, ks);
      CountsDecide(assignments, ks, r);
      if settledCount == |ks| { return Clear; }
      if !allFinalized { return Wait; }
      if settledCount != 0 { return Refuse; }
      return Pay;
    }

    /** Settlement leaves every other field alone. */
    twostate lemma SettleFrame()
      requires unchanged(this`now, this`height, this`params, this`websites, this`primary, this`streaks, this`slots, this`leases,
                         this`slotSeq, this`leaseSeq, this`lastRound, this`metas, this`beacons, this`commits, this`submissions,
                         this`penalties, this`gifts, this`commitLog, this`revealLog, this`tallies, verifiers)
      ensures View() == old(View()).(bank := bank.balances, funded := tokenomics.funded, assignments := assignments,
                                     unsettled := unsettled,
                                     log := old(Log()).(settlements := settlements, paid := tokenomics.paid, burned := tokenomics.burned))
    {
    }

    /** settleVerificationRound: pay, then mark. */
    method SettleVerificationRound(r: int) returns (ok: bool)
      requires Wired() && params.Valid()
      modifies this`assignments, this`unsettled, this`settlements, tokenomics, bank
      ensures ok == (P.SettlePayments(old(tokenomics.Treasury()), old(TheRecords()), params, r).Ok? && T.RoundStorable(old(assignments), r))
      ensures ok ==>
        && tokenomics.Treasury() == P.SettlePayments(old(tokenomics.Treasury()), old(TheRecords()), params, r).value
        && assignments == Settle(old(assignments), r) && unsettled == old(unsettled) - {r}
        && settlements == old(settlements) + [r]
    {
      ok := SettlePayments(r, TheRecords());
      if !ok { return; }
      ok := MarkRewardsSettled(r);
      if ok { settlements := settlements + [r]; }
    }

    method PayAndMark(r: int) returns (ok: bool)
      requires Wired() && params.Valid()
      modifies this`assignments, this`unsettled, this`settlements, tokenomics, bank
      ensures View() == old(View()).(bank := bank.balances, funded := tokenomics.funded, assignments := assignments,
                                     unsettled := unsettled,
                                     log := old(Log()).(settlements := settlements, paid := tokenomics.paid, burned := tokenomics.burned))
      ensures ok == (P.SettlePayments(old(tokenomics.Treasury()), old(TheRecords()), params, r).Ok? && T.RoundStorable(old(assignments), r))
      ensures ok ==>
        && tokenomics.Treasury() == P.SettlePayments(old(tokenomics.Treasury()), old(TheRecords()), params, r).value
        && assignments == Settle(old(assignments), r) && unsettled == old(unsettled) - {r}
        && settlements == old(settlements) + [r]
    {
      ok := SettleVerificationRound(r);
      SettleFrame();
    }

    method SettleRound(r: int) returns (err: Option<Error>)
      requires Wired()
      modifies this`assignments, this`unsettled, this`settlements, tokenomics, bank
      ensures err == None ==> T.SettleRound(old(View()), r) == Ok(View())
      ensures err.Some? ==> T.SettleRound(old(View()), r).Err?
    {
      if !params.Valid() { return Some(Invalid); }
      ghost var s := View();
      var d := DecideRound(r);
      match d
      case Clear =>
        unsettled := unsettled - {r};
        return None;
      case Wait => return None;
      case Refuse => return Some(PartiallySettled);
      case Pay =>
        var ok := PayAndMark(r);
        PaidIs(s, r, View());
        return if ok then None else Some(InsufficientFunds);
    }

    method SettleEachRound(rounds: seq<int>) returns (err: Option<Error>)
      requires Wired()
      modifies this`assignments, this`unsettled, this`settlements, tokenomics, bank
      ensures err == None ==> Fold(T.SettleRound, old(View()), rounds, |rounds|) == Ok(View())
      ensures err.Some? ==> Fold(T.SettleRound, old(View()), rounds, |rounds|).Err?
    {
      ghost var before := View();
      err := None;
      var i: nat := 0;
      while i < |rounds| && err == None
        invariant i <= |rounds|
        invariant err == None ==> Fold(T.SettleRound, before, rounds, i) == Ok(View())
        invariant err.Some? ==> Fold(T.SettleRound, before, rounds, i).Err?
        decreases |rounds| - i
      {
        FoldNext(T.SettleRound, before, rounds, i, View());
        err := SettleRound(rounds[i]);
        i := i + 1;
      }
      if err.Some? { FoldStaysErr(T.SettleRound, before, rounds, i, |rounds|); }
    }

    /** settleFinalizedVerificationRounds. */
    method SettleFinalizedRounds() returns (err: Option<Error>)
      requires Wired()
      modifies this`assignments, this`unsettled, this`settlements, tokenomics, bank
      ensures err == None ==> T.SettleRounds(old(View())) == Ok(View())
      ensures err.Some? ==> T.SettleRounds(old(View())).Err?
    {
      err := SettleEachRound(SortedInts(unsettled));
    }

    // Assigning the next round.

    /** The websites due at round start r, in order. */
    method CollectDueSites(r: int) returns (domains: seq<string>)
      ensures domains == SortedStrings(DueSites(websites, r))
    {
      var all := SortedStrings(websites.Keys);
      EnumerationElems(all, websites.Keys);
      ghost var keep := DueAt(websites, r);
      domains := [];
      var i := 0;
      while i < |all|
        invariant 0 <= i <= |all|
        invariant domains == Filter(all, keep, i)
      {
        var w := websites[all[i]];
        FilterStep(all, keep, i);
        if w.pendingOwner != "" || (w.cooldownUntil <= r && w.status != Revoked) { domains := domains + [all[i]]; }
        i := i + 1;
      }
      DueSorted(websites, r);
    }

    method DrawPanel(c: Scene, env: Env, seed: string, d: string) returns (selected: seq<string>)
      ensures selected == Panel(c, params, env, seed, d)
    {
      var candidates := SortedStrings(Eligible(c));
      EnumerationElems(candidates, Eligible(c));
      selected := S.SelectDeterministicWeighted(candidates, c.bonds, params.minVerifierCount, Digest(env, seed, d));
    }

    method MakeAssignment(c: Scene, env: Env, seed: string, r: int, d: string) returns (a: Assignment)
      requires params.Valid() && d in c.websites
      ensures a == NewAssignment(c, params, env, seed, r, d)
    {
      var w := c.websites[d];
      var start := Wrap64(r + Offset(params, env.offset(seed, d)));
      var selected := DrawPanel(c, env, seed, d);
      a := Assignment(start, Wrap64(start + params.submissionWindow), SortedStrings(Elems(selected)), false, 0, false, false,
                      if w.pendingOwner != "" then w.pendingOwner else w.owner, w.pendingOwner != "");
    }

    /** One due website: skipped when the round already has its assignment. */
    method AssignSite(c: Scene, env: Env, seed: string, r: int, d: string) returns (ok: bool)
      requires params.Valid() && d in c.websites
      modifies this`assignments, this`unsettled
      ensures var k, a := AssignmentId(r, d), NewAssignment(c, params, env, seed, r, d);
        && ok == (k in old(assignments) || Storable(k, a))
        && (ok ==> assignments == (if k in old(assignments) then old(assignments) else old(assignments)[k := a])
                   && unsettled == (if k in old(assignments) then old(unsettled) else old(unsettled) + {r}))
    {
      var k := AssignmentId(r, d);
      if k in assignments { return true; }
      var a := MakeAssignment(c, env, seed, r, d);
      ok := SetAssignment(k, a);
    }

    method AssignEach(c: Scene, env: Env, seed: string, r: int, domains: seq<string>) returns (ok: bool)
      requires params.Valid() && Enumerates(domains, DueSites(c.websites, r))
      modifies this`assignments, this`unsettled
      ensures ok == AllStorable(NewRound(c, params, env, old(assignments), seed, r))
      ensures ok ==> assignments == old(assignments) + NewRound(c, params, env, old(assignments), seed, r)
      ensures ok ==> unsettled == if NewRound(c, params, env, old(assignments), seed, r) == map[] then old(unsettled) else old(unsettled) + {r}
    {
      ghost var before, all := assignments, NewRound(c, params, env, assignments, seed, r);
      ghost var open := unsettled;
      DueDomains(domains, DueSites(c.websites, r), c.websites);
      AssignedStart(before, open, all, r, domains);
      ok := true;
      var i: nat := 0;
      while i < |domains| && ok
        invariant AssignedUpTo(before, open, all, r, domains, i, ok, assignments, unsettled)
        decreases |domains| - i
      {
        ghost var docket, waiting := assignments, unsettled;
        ok := AssignSite(c, env, seed, r, domains[i]);
        AssignedNext(c, params, env, seed, r, before, open, all, domains, i, docket, waiting, ok, assignments, unsettled);
        i := i + 1;
      }
      NewDomains(c, params, env, before, seed, r, domains);
      AssignedAll(before, open, all, r, domains, i, ok, assignments, unsettled);
    }

    method InstallAssignments(c: Scene, env: Env, seed: string, r: int) returns (ok: bool)
      requires params.Valid() && c.websites == websites
      modifies this`assignments, this`unsettled, this`lastRound
      ensures ok == AllStorable(NewRound(c, params, env, old(assignments), seed, r))
      ensures ok ==> TheCalendar() == AddRound(old(TheCalendar()), r, NewRound(c, params, env, old(assignments), seed, r))
    {
      var domains := CollectDueSites(r);
      ok := AssignEach(c, env, seed, r, domains);
      if ok { lastRound := Some(r); }
    }

    /** Metadata is written once, and only with a positive creation time. */
    method RecordMeta(r: int, meta: RoundMeta) returns (ok: bool)
      modifies this`metas
      ensures ok == (r in old(metas) || meta.createdAt > 0)
      ensures metas == if ok && r !in old(metas) then old(metas)[r := meta] else old(metas)
    {
      if r in metas { return true; }
      if meta.createdAt <= 0 { return false; }
      metas := metas[r := meta];
      ok := true;
    }

    method InstallRound(env: Env, anchor: string, r: int, drandRound: nat, randomness: string) returns (ok: bool)
      requires params.Valid()
      modifies this`assignments, this`unsettled, this`lastRound, this`metas
      ensures var plan := TryInstall(old(Plan(TheCalendar(), metas)),
                Scene(websites, verifiers.bonds, verifiers.params.minBond, penalties, now, anchor), params, env, r, drandRound, randomness);
        (ok ==> plan == Ok(Plan(TheCalendar(), metas))) && (!ok ==> plan == Err(Invalid))
    {
      var c := Scene(websites, verifiers.bonds, verifiers.params.minBond, penalties, now, anchor);
      var seed := SeedFor(c, env, r, drandRound, randomness);
      ghost var plan, added := Plan(TheCalendar(), metas), NewRound(c, params, env, assignments, seed, r);
      assert RoundFor(plan, c, params, env, r, drandRound, randomness) == added;
      ok := RecordMeta(r, RoundMeta(seed, now, |Eligible(c)|, drandRound, randomness));
      if ok { ok := InstallAssignments(c, env, seed, r); }
      ghost var result := TryInstall(plan, c, params, env, r, drandRound, randomness);
      if ok {
        Installed(plan, c, params, env, r, drandRound, randomness, added, Plan(TheCalendar(), metas));
      } else {
        NotInstalled(plan, c, params, env, r, drandRound, randomness, added);
      }
      assert result == if ok then Ok(Plan(TheCalendar(), metas)) else Err(Invalid);
      assert c == Scene(websites, verifiers.bonds, verifiers.params.minBond, penalties, now, anchor);
      assert plan == old(Plan(TheCalendar(), metas));
    }

    twostate lemma AssignFrame()
      requires unchanged(this`now, this`height, this`params, this`websites, this`primary, this`streaks, this`slots, this`leases,
                         this`slotSeq, this`leaseSeq, this`beacons, this`commits, this`submissions, this`penalties, this`gifts,
                         this`commitLog, this`revealLog, this`tallies, this`settlements, bank, tokenomics, verifiers)
      ensures View() == old(View()).(assignments := assignments, unsettled := unsettled, lastRound := lastRound, metas := metas)
    {
    }

    method AssignNewRound(env: Env, anchor: string) returns (err: Option<Error>)
      requires params.Valid()
      modifies this`assignments, this`unsettled, this`lastRound, this`metas
      ensures View() == old(View()).(assignments := assignments, unsettled := unsettled, lastRound := lastRound, metas := metas)
      ensures var plan := Assigning.AssignNewRound(old(Plan(TheCalendar(), metas)),
                Scene(websites, verifiers.bonds, verifiers.params.minBond, penalties, now, anchor), params, env, beacons);
        (err == None ==> plan == Ok(Plan(TheCalendar(), metas))) && (err.Some? ==> plan == Err(err.value))
    {
      var r := NextRoundStart(now, params.roundInterval);
      if r <= 0 { return None; }
      if lastRound.Some? && r <= lastRound.value { return None; }
      var drandRound, randomness := 0, "";
      if params.drandEnabled {
        var required := RequiredRound(params, r);
        if required == None { return Some(DrandUnavailable); }
        if required.value !in beacons { return None; }
        drandRound, randomness := required.value, beacons[required.value].randomness;
      }
      var ok := InstallRound(env, anchor, r, drandRound, randomness);
      AssignFrame();
      return if ok then None else Some(Invalid);
    }

    // The upgrade.

    /** Clear the index entries of the given assignments' rounds. */
    method ClearRounds(ks: seq<AssignmentId>)
      modifies this`unsettled
      ensures unsettled == old(unsettled) - RoundsAmong(ks)
    {
      ghost var open := unsettled;
      NothingMarked(assignments, open, ks);
      var i: nat := 0;
      while i < |ks|
        invariant i <= |ks|
        invariant unsettled == open - RoundsAmong(ks[..i])
      {
        RoundsStep(open, ks, i);
        unsettled := unsettled - {ks[i].round};
        i := i + 1;
      }
      FullPrefix(ks);
    }

    method MarkAllSettled() returns (ok: bool)
      modifies this`assignments, this`unsettled
      ensures ok == AllStorable(old(assignments))
      ensures ok ==> TheCalendar() == Migrate(old(TheCalendar()))
    {
      ghost var before := assignments;
      var ks := SortedAssignments(assignments.Keys);
      EnumerationElems(ks, assignments.Keys);
      StorableAll(before, ks);
      ok := MarkEach(ks);
      if !ok { return; }
      ClearRounds(ks);
      MarkedAll(before, assignments, ks);
    }

    method MigrateStores(p: Params) returns (ok: bool)
      modifies this`params, this`assignments, this`unsettled
      ensures View() == old(View()).(params := p, assignments := assignments, unsettled := unsettled)
      ensures ok == AllStorable(old(assignments))
      ensures ok ==> TheCalendar() == Migrate(old(TheCalendar()))
    {
      params := p;
      ok := MarkAllSettled();
    }

    method Migrate2To3() returns (err: Option<Error>)
      modifies this`params, this`assignments, this`unsettled
      ensures err == None ==> N.UpgradeStep(old(View())) == Ok(View())
      ensures err.Some? ==> N.UpgradeStep(old(View())) == Err(err.value)
    {
      ghost var s := View();
      var p := params.(publisherMinRewardBps := DEFAULT_PARAMS.publisherMinRewardBps);
      if !p.Valid() { return Some(Invalid); }
      var ok := MigrateStores(p);
      UpgradedIs(s, View());
      err := if ok then None else Some(Invalid);
    }

    // The end of a block.

    method EndBlock(env: Env, anchor: string) returns (err: Option<Error>)
      requires Wired() && params.Valid()
      modifies this, tokenomics, bank
      ensures err == None ==> N.EndBlockStep(old(View()), env, anchor) == Ok(View())
      ensures err.Some? ==> N.EndBlockStep(old(View()), env, anchor).Err?
    {
      err := FinalizeAssignments();
      if err.Some? { return; }
      err := SettleFinalizedRounds();
      if err.Some? { return; }
      err := SettleLeases();
      if err.Some? { return; }
      ghost var s := View();
      err := AssignNewRound(env, anchor);
      AssignedIs(s, env, anchor, View());
    }
  }
}
