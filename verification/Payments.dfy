// The money side of settling one round (x/registry/verification_rounds.go, settleVerificationRound and
// payVerifierAssignmentRewards; x/tokenomics/keeper.go).
module Payments {
  import opened Base
  import opened Orders
  import opened Sums
  import opened Arith
  import opened Bank
  import opened PublisherParams
  import opened Tally
  import opened StoreKeys
  import opened ChainState
  import opened Votes
  import opened Rounds
  import E = Emission
  import R = RewardSplit

  /** The emission pool's account, its funding record, and what was paid and burned so far. */
  datatype Treasury = Treasury(bank: Ledger, funded: nat, paid: nat, burned: nat) {
    function Pool(): nat {
      Balance(bank, TOKENOMICS, REWARD_DENOM)
    }
  }

  /** What settlement reads. */
  datatype Records = Records(
    docket: Docket,
    submissions: map<VoteId, Submission>,
    websites: map<string, Website>,
    bonds: map<string, nat>)

  // The pool keeper.

  /** EnsureEmissionPool mints the missing part of the target once. */
  function EnsurePool(t: Treasury, target: nat): Treasury {
    if t.funded >= target then t
    else t.(bank := Credit(t.bank, TOKENOMICS, REWARD_DENOM, target - t.funded), funded := target)
  }

  function SendBatch(t: Treasury, ps: seq<Payment>): Result<Treasury, Error> {
    match SendAll(t.bank, TOKENOMICS, REWARD_DENOM, ps)
    case None => Err(InsufficientFunds)
    case Some(bank) => Ok(t.(bank := bank, paid := t.paid + SumPayments(ps)))
  }

  function BurnRest(t: Treasury, n: nat): Result<Treasury, Error> {
    if n == 0 then Ok(t)
    else
      match Burn(t.bank, TOKENOMICS, REWARD_DENOM, n)
      case None => Err(InsufficientFunds)
      case Some(bank) => Ok(t.(bank := bank, burned := t.burned + n))
  }

  /** Pay out ps and burn what is left of the budget. */
  function Spend(t: Treasury, ps: seq<Payment>, budget: nat): Result<Treasury, Error>
    requires SumPayments(ps) <= budget
  {
    match SendBatch(t, ps)
    case Err(e) => Err(e)
    case Ok(u) => BurnRest(u, budget - SumPayments(ps))
  }

  /** Spending succeeds exactly when the pool covers the budget, and takes exactly the budget out of it. */
  lemma SpendExact(t: Treasury, ps: seq<Payment>, budget: nat)
    requires SumPayments(ps) <= budget
    ensures Spend(t, ps, budget).Ok? <==> budget <= t.Pool()
    ensures Spend(t, ps, budget).Ok? ==>
      var u := Spend(t, ps, budget).value;
      && u.Pool() == t.Pool() - budget && u.funded == t.funded
      && u.paid == t.paid + SumPayments(ps) && u.paid + u.burned == t.paid + t.burned + budget
  {
    SendAllCovers(t.bank, TOKENOMICS, REWARD_DENOM, ps);
  }

  /** It leaves every other module account alone and destroys exactly what it burns. */
  lemma SpendFrame(t: Treasury, ps: seq<Payment>, budget: nat, a: Account, d: string)
    requires SumPayments(ps) <= budget && Spend(t, ps, budget).Ok?
    ensures a.Module? && (a != TOKENOMICS || d != REWARD_DENOM) ==>
      Balance(Spend(t, ps, budget).value.bank, a, d) == Balance(t.bank, a, d)
    ensures Supply(Spend(t, ps, budget).value.bank, d)
         == Supply(t.bank, d) - (if d == REWARD_DENOM then budget - SumPayments(ps) else 0)
  {
    SendAllFrame(t.bank, TOKENOMICS, REWARD_DENOM, ps, a, d);
    BurnFrame(SendBatch(t, ps).value, budget - SumPayments(ps), a, d);
  }

  lemma BurnFrame(t: Treasury, n: nat, a: Account, d: string)
    requires BurnRest(t, n).Ok?
    ensures a.Module? && (a != TOKENOMICS || d != REWARD_DENOM) ==> Balance(BurnRest(t, n).value.bank, a, d) == Balance(t.bank, a, d)
    ensures Supply(BurnRest(t, n).value.bank, d) == Supply(t.bank, d) - (if d == REWARD_DENOM then n else 0)
  {
    if n > 0 { DebitSupply(t.bank, TOKENOMICS, REWARD_DENOM, n, d); }
  }

  // Publishers.

  /** The verified assignments among ks, in order. */
  function Verified(docket: Docket, ks: seq<AssignmentId>): (r: seq<AssignmentId>)
    ensures forall i :: 0 <= i < |r| ==> r[i] in ks && r[i] in docket && docket[r[i]].verified
    ensures |r| <= |ks|
  {
    if ks == [] then []
    else
      var n := |ks| - 1;
      Verified(docket, ks[..n]) + (if ks[n] in docket && docket[ks[n]].verified then [ks[n]] else [])
  }

  function Claim(x: Records, p: Params, k: AssignmentId, base: nat): (r: nat)
    requires k in x.docket
    ensures r <= base
  {
    var t := TallyOf(x.submissions, k, x.docket[k]);
    E.ClaimableBounds(base, t.verifiedSimilar, t.verifiedSimilar, p.RequiredLinks(), MinBps(p));
    E.Claimable(base, t.verifiedSimilar, p.RequiredLinks(), MinBps(p))
  }

  function MinBps(p: Params): (r: int)
    ensures 0 <= r <= 10000
  {
    p.MinRewardBps()
  }

  /** What one verified assignment pays its publisher: nothing without a website or a positive claim. */
  function PublisherPayment(x: Records, p: Params, k: AssignmentId, base: nat): (r: seq<Payment>)
    ensures |r| <= 1
    ensures r != [] ==> k.domain in x.websites && r[0].to == x.websites[k.domain].owner && 0 < r[0].amount <= base
  {
    if k in x.docket && k.domain in x.websites && Claim(x, p, k, base) > 0
    then [Payment(x.websites[k.domain].owner, Claim(x, p, k, base))]
    else []
  }

  function PublisherPayments(x: Records, p: Params, active: seq<AssignmentId>, base: nat): seq<Payment> {
    if active == [] then []
    else
      var n := |active| - 1;
      PublisherPayments(x, p, active[..n], base) + PublisherPayment(x, p, active[n], base)
  }

  lemma AppendPayments(ps: seq<Payment>, qs: seq<Payment>, bound: nat)
    requires |qs| <= 1 && (qs != [] ==> qs[0].amount <= bound)
    ensures SumPayments(ps) <= SumPayments(ps + qs) <= SumPayments(ps) + bound
  {
    SumPaymentsConcat(ps, qs);
    if qs != [] { assert qs[..0] == []; }
  }

  lemma {:induction false} PublisherPaymentsBounded(x: Records, p: Params, active: seq<AssignmentId>, base: nat)
    ensures SumPayments(PublisherPayments(x, p, active, base)) <= |active| * base
  {
    if active != [] {
      var n := |active| - 1;
      PublisherPaymentsBounded(x, p, active[..n], base);
      AppendPayments(PublisherPayments(x, p, active[..n], base), PublisherPayment(x, p, active[n], base), base);
      Distribute(n, 1, base);
    }
  }

  // Verifiers.

  /** The verifiers that revealed a pass, in order. */
  function Successful(submissions: map<VoteId, Submission>, k: AssignmentId): (r: seq<string>)
    ensures NoDup(r)
  {
    SortedStrings(PassingVoters(submissions, k))
  }

  /** CountActiveReferredPublishers. */
  function Referred(websites: map<string, Website>, verifier: string): nat {
    |set d | d in websites && websites[d].status == ChainState.Verified && websites[d].referrer == verifier|
  }

  function RewardWeight(x: Records, verifier: string): int {
    if verifier in x.bonds then x.bonds[verifier] * Max(1, Referred(x.websites, verifier)) else 0
  }

  /** Bond times referrals, for the successful verifiers that still have a bond. */
  function Weights(x: Records, successful: seq<string>): map<string, int> {
    map v | v in successful && v in x.bonds && x.bonds[v] > 0 :: RewardWeight(x, v)
  }

  function SplitOf(x: Records, p: Params, k: AssignmentId, total: nat): R.Split {
    var successful := Successful(x.submissions, k);
    R.SplitPools(R.BasePool(total, p.BaseShareBps()), R.WeightedPool(total, p.BaseShareBps()), successful,
                 Weights(x, successful))
  }

  /** The payment loop reads payouts[a] for every successful a; a missing entry is a nil amount. */
  predicate Defined(successful: seq<string>, payouts: map<string, int>) {
    forall i :: 0 <= i < |successful| ==> successful[i] in payouts
  }

  function PayList(successful: seq<string>, payouts: map<string, int>): seq<Payment>
    requires Defined(successful, payouts) && R.AllPositive(payouts)
  {
    if successful == [] then []
    else
      var n := |successful| - 1;
      PayList(successful[..n], payouts) + [Payment(successful[n], payouts[successful[n]])]
  }

  lemma {:induction false} PayListSum(successful: seq<string>, payouts: map<string, int>)
    requires Defined(successful, payouts) && R.AllPositive(payouts) && NoDup(successful)
    ensures SumPayments(PayList(successful, payouts)) <= SumMap(payouts)
    ensures payouts.Keys == Elems(successful) ==> SumPayments(PayList(successful, payouts)) == SumMap(payouts)
    decreases |successful|
  {
    if successful == [] {
      SumMapNonNegative(payouts);
      assert payouts.Keys == {} ==> payouts == map[];
    } else {
      var n := |successful| - 1;
      var last := successful[n];
      var rest := payouts - {last};
      PrefixElems(successful, n + 1);
      FullPrefix(successful);
      SumMapRemove(payouts, last);
      PayListSum(successful[..n], rest);
      PayListFrame(successful[..n], payouts, last);
      AppendOne(PayList(successful[..n], payouts), Payment(last, payouts[last]));
    }
  }

  lemma AppendOne(ps: seq<Payment>, q: Payment)
    ensures SumPayments(ps + [q]) == SumPayments(ps) + q.amount
  {
    assert (ps + [q])[..|ps|] == ps;
  }

  lemma {:induction false} PayListFrame(names: seq<string>, payouts: map<string, int>, last: string)
    requires Defined(names, payouts) && R.AllPositive(payouts) && last !in names
    ensures PayList(names, payouts - {last}) == PayList(names, payouts)
  {
    if names != [] { PayListFrame(names[..|names| - 1], payouts, last); }
  }

  predicate Paying(x: Records, k: AssignmentId, total: nat) {
    total > 0 && Successful(x.submissions, k) != []
  }

  lemma SplitFacts(x: Records, p: Params, k: AssignmentId, total: nat)
    requires Successful(x.submissions, k) != []
    ensures R.Conserves(total, SplitOf(x, p, k, total))
    ensures SplitOf(x, p, k, total).payouts.Keys <= Elems(Successful(x.submissions, k))
    ensures SplitOf(x, p, k, total).remaining >= 0
  {
    var successful := Successful(x.submissions, k);
    var base, rest := R.BasePool(total, p.BaseShareBps()), R.WeightedPool(total, p.BaseShareBps());
    R.SplitPoolsConserves(base, rest, successful, Weights(x, successful));
    R.OnlySuccessfulPaid(base, rest, successful, Weights(x, successful));
  }

  /** payVerifierAssignmentRewards: what one verified assignment pays, or the nil-amount panic. */
  function VerifierPayments(x: Records, p: Params, k: AssignmentId, total: nat): Result<seq<Payment>, Error> {
    if !Paying(x, k, total) then Ok([])
    else
      SplitFacts(x, p, k, total);
      var successful := Successful(x.submissions, k);
      var payouts := SplitOf(x, p, k, total).payouts;
      if !Defined(successful, payouts) then Err(NilAmount) else Ok(PayList(successful, payouts))
  }

  /** Every coin of the assignment's share is paid or stays in the remainder. */
  lemma VerifierPaymentsSum(x: Records, p: Params, k: AssignmentId, total: nat)
    requires VerifierPayments(x, p, k, total).Ok?
    ensures SumPayments(VerifierPayments(x, p, k, total).value)
         == if Paying(x, k, total) then total - SplitOf(x, p, k, total).remaining else 0
    ensures SumPayments(VerifierPayments(x, p, k, total).value) <= total
  {
    if Paying(x, k, total) {
      SplitFacts(x, p, k, total);
      var successful, payouts := Successful(x.submissions, k), SplitOf(x, p, k, total).payouts;
      DefinedCovers(successful, payouts);
      PayListSum(successful, payouts);
    }
  }

  lemma DefinedCovers(successful: seq<string>, payouts: map<string, int>)
    requires Defined(successful, payouts)
    ensures Elems(successful) <= payouts.Keys
  {
  }

  /** The panic is impossible when the base pool holds a unit for each successful verifier. */
  lemma BaseCoversAll(x: Records, p: Params, k: AssignmentId, total: nat)
    requires |Successful(x.submissions, k)| <= R.BasePool(total, p.BaseShareBps())
    ensures VerifierPayments(x, p, k, total).Ok?
  {
    var successful := Successful(x.submissions, k);
    forall i | 0 <= i < |successful|
      ensures successful[i] in SplitOf(x, p, k, total).payouts
    {
      R.PayoutDefined(R.BasePool(total, p.BaseShareBps()), R.WeightedPool(total, p.BaseShareBps()), successful,
                      Weights(x, successful), i);
    }
  }

  function AllVerifierPayments(x: Records, p: Params, active: seq<AssignmentId>, per: nat): Result<seq<Payment>, Error> {
    if active == [] then Ok([])
    else
      var n := |active| - 1;
      match AllVerifierPayments(x, p, active[..n], per)
      case Err(e) => Err(e)
      case Ok(ps) =>
        match VerifierPayments(x, p, active[n], per)
        case Err(e) => Err(e)
        case Ok(qs) => Ok(ps + qs)
  }

  lemma {:induction false} AllVerifierPaymentsBounded(x: Records, p: Params, active: seq<AssignmentId>, per: nat)
    requires AllVerifierPayments(x, p, active, per).Ok?
    ensures SumPayments(AllVerifierPayments(x, p, active, per).value) <= |active| * per
  {
    if active != [] {
      var n := |active| - 1;
      AllVerifierPaymentsBounded(x, p, active[..n], per);
      VerifierPaymentsSum(x, p, active[n], per);
      SumPaymentsConcat(AllVerifierPayments(x, p, active[..n], per).value, VerifierPayments(x, p, active[n], per).value);
      Distribute(n, 1, per);
    }
  }

  // One round.

  lemma ShareFits(pool: nat, n: nat, m: nat)
    requires 0 < n && m <= n
    ensures 0 <= pool / n && m * (pool / n) <= pool
  {
    FloorBounds(pool, n);
    FloorMono(0, pool, n);
    MulMono(m, n, pool / n);
  }

  function Share(pool: nat, n: nat): nat {
    if n == 0 then 0 else ShareFits(pool, n, n); pool / n
  }

  lemma ShareTotals(pool: nat, n: nat, m: nat)
    requires m <= n
    ensures m * Share(pool, n) <= pool
  {
    if n > 0 { ShareFits(pool, n, m); }
  }

  function Keys(x: Records, r: int): seq<AssignmentId> {
    SortedAssignments(RoundKeys(x.docket, r))
  }

  function Active(x: Records, r: int): seq<AssignmentId> {
    Verified(x.docket, Keys(x, r))
  }

  function PublisherBatch(x: Records, p: Params, r: int, pool: nat): seq<Payment> {
    PublisherPayments(x, p, Active(x, r), Share(pool, |Active(x, r)|))
  }

  function VerifierBatch(x: Records, p: Params, r: int, pool: nat): Result<seq<Payment>, Error> {
    AllVerifierPayments(x, p, Active(x, r), Share(pool, |Keys(x, r)|))
  }

  lemma PublisherBatchFits(x: Records, p: Params, r: int, pool: nat)
    ensures SumPayments(PublisherBatch(x, p, r, pool)) <= pool
  {
    var n := |Active(x, r)|;
    PublisherPaymentsBounded(x, p, Active(x, r), Share(pool, n));
    ShareTotals(pool, n, n);
  }

  lemma VerifierBatchFits(x: Records, p: Params, r: int, pool: nat)
    requires VerifierBatch(x, p, r, pool).Ok?
    ensures SumPayments(VerifierBatch(x, p, r, pool).value) <= pool
  {
    AllVerifierPaymentsBounded(x, p, Active(x, r), Share(pool, |Keys(x, r)|));
    ShareTotals(pool, |Keys(x, r)|, |Active(x, r)|);
  }

  /** Publishers are paid and their remainder burned, then the verifiers. */
  function PayRound(t: Treasury, x: Records, p: Params, r: int, pools: E.Pools): Result<Treasury, Error> {
    PublisherBatchFits(x, p, r, pools.publisher);
    match Spend(t, PublisherBatch(x, p, r, pools.publisher), pools.publisher)
    case Err(e) => Err(e)
    case Ok(u) =>
      match VerifierBatch(x, p, r, pools.verifier)
      case Err(e) => Err(e)
      case Ok(ps) =>
        VerifierBatchFits(x, p, r, pools.verifier);
        Spend(u, ps, pools.verifier)
  }

  /** settleVerificationRound up to marking the assignments. */
  function SettlePayments(t: Treasury, x: Records, p: Params, r: int): Result<Treasury, Error>
    requires p.roundInterval > 0
  {
    match E.SettlementPools(p)
    case None => Err(BadEmission)
    case Some(pools) => PayRound(EnsurePool(t, E.Target(p)), x, p, r, pools)
  }

  /**
   * Per-round conservation: a settled round takes exactly both pools out of the emission account, paid or
   * burned; it settles if and only if the account covers them and every successful verifier has a payout entry.
   */
  lemma PayRoundConserves(t: Treasury, x: Records, p: Params, r: int, pools: E.Pools)
    ensures PayRound(t, x, p, r, pools).Ok? <==> pools.Sum() <= t.Pool() && VerifierBatch(x, p, r, pools.verifier).Ok?
    ensures PayRound(t, x, p, r, pools).Ok? ==>
      var u := PayRound(t, x, p, r, pools).value;
      && u.Pool() == t.Pool() - pools.Sum() && u.funded == t.funded
      && u.paid + u.burned == t.paid + t.burned + pools.Sum()
      && u.paid == t.paid + SumPayments(PublisherBatch(x, p, r, pools.publisher))
                   + SumPayments(VerifierBatch(x, p, r, pools.verifier).value)
  {
    PublisherBatchFits(x, p, r, pools.publisher);
    SpendExact(t, PublisherBatch(x, p, r, pools.publisher), pools.publisher);
    if pools.publisher <= t.Pool() && VerifierBatch(x, p, r, pools.verifier).Ok? {
      VerifierBatchFits(x, p, r, pools.verifier);
      var u := Spend(t, PublisherBatch(x, p, r, pools.publisher), pools.publisher).value;
      SpendExact(u, VerifierBatch(x, p, r, pools.verifier).value, pools.verifier);
    }
  }

  lemma PayRoundFrame(t: Treasury, x: Records, p: Params, r: int, pools: E.Pools, a: Account, d: string)
    requires PayRound(t, x, p, r, pools).Ok?
    ensures a.Module? && (a != TOKENOMICS || d != REWARD_DENOM) ==>
      Balance(PayRound(t, x, p, r, pools).value.bank, a, d) == Balance(t.bank, a, d)
    ensures Supply(PayRound(t, x, p, r, pools).value.bank, d) + (if d == REWARD_DENOM then PayRound(t, x, p, r, pools).value.burned else 0)
         == Supply(t.bank, d) + (if d == REWARD_DENOM then t.burned else 0)
  {
    PublisherBatchFits(x, p, r, pools.publisher);
    VerifierBatchFits(x, p, r, pools.verifier);
    var u := Spend(t, PublisherBatch(x, p, r, pools.publisher), pools.publisher).value;
    SpendFrame(t, PublisherBatch(x, p, r, pools.publisher), pools.publisher, a, d);
    SpendFrame(u, VerifierBatch(x, p, r, pools.verifier).value, pools.verifier, a, d);
  }

  /** With enough verified links a registered publisher receives exactly its full base share. */
  lemma FullClaimPaid(x: Records, p: Params, k: AssignmentId, base: nat)
    requires k in x.docket && k.domain in x.websites && base > 0
    requires TallyOf(x.submissions, k, x.docket[k]).verifiedSimilar >= p.RequiredLinks()
    ensures PublisherPayment(x, p, k, base) == [Payment(x.websites[k.domain].owner, base)]
  {
    var t := TallyOf(x.submissions, k, x.docket[k]);
    E.ClaimableBounds(base, t.verifiedSimilar, t.verifiedSimilar, p.RequiredLinks(), MinBps(p));
  }

  // Who is paid.

  /** v revealed a pass for assignment k. */
  predicate Passed(submissions: map<VoteId, Submission>, k: AssignmentId, v: string) {
    VoteId(k.round, k.domain, v) in submissions && submissions[VoteId(k.round, k.domain, v)].passed
  }

  lemma PassersAreSuccessful(submissions: map<VoteId, Submission>, k: AssignmentId, v: string)
    ensures v in Successful(submissions, k) <==> Passed(submissions, k, v)
  {
    assert v in PassingVoters(submissions, k) <==> Passed(submissions, k, v);
  }

  predicate Bonded(x: Records, v: string) {
    v in x.bonds && x.bonds[v] > 0
  }

  /** The bond times the number of verified websites that v referred, at least once; nothing without a bond. */
  function Standing(x: Records, v: string): nat {
    if !Bonded(x, v) then 0
    else
      var referred := |set d | d in x.websites && x.websites[d].status == ChainState.Verified && x.websites[d].referrer == v|;
      MulMono(1, Max(1, referred), x.bonds[v]);
      x.bonds[v] * Max(1, referred)
  }

  /** A successful verifier weighs exactly its standing, which is positive exactly while it has a bond. */
  lemma WeightsExact(x: Records, successful: seq<string>, v: string)
    requires v in successful
    ensures R.WeightAt(Weights(x, successful), v) == Standing(x, v)
    ensures Standing(x, v) > 0 <==> Bonded(x, v)
  {
    if Bonded(x, v) { MulMono(1, Max(1, Referred(x.websites, v)), x.bonds[v]); }
  }

  lemma {:induction false} PayListAt(successful: seq<string>, payouts: map<string, int>)
    requires Defined(successful, payouts) && R.AllPositive(payouts)
    ensures |PayList(successful, payouts)| == |successful|
    ensures forall i :: 0 <= i < |successful| ==>
      PayList(successful, payouts)[i] == Payment(successful[i], payouts[successful[i]])
  {
    if successful != [] { PayListAt(successful[..|successful| - 1], payouts); }
  }

  /** The payments of an assignment, name by name. */
  lemma PaymentsAre(x: Records, p: Params, k: AssignmentId, total: nat)
    requires total > 0 && VerifierPayments(x, p, k, total).Ok?
    ensures var ps, names := VerifierPayments(x, p, k, total).value, Successful(x.submissions, k);
      && |ps| == |names|
      && forall i :: 0 <= i < |ps| ==>
           && ps[i].to == names[i] && ps[i].amount > 0
           && ps[i].amount == R.Get(SplitOf(x, p, k, total).payouts, names[i])
  {
    if Paying(x, k, total) {
      SplitFacts(x, p, k, total);
      PayListAt(Successful(x.submissions, k), SplitOf(x, p, k, total).payouts);
    }
  }

  /**
   * What the i-th payment of an assignment amounts to: the base share without a bond; with one, the base share plus
   * its standing's part of the weighted pool, up to rounding.
   */
  predicate FairPayment(x: Records, p: Params, k: AssignmentId, total: nat, i: nat, pay: Payment)
    requires i < |Successful(x.submissions, k)|
  {
    var names := Successful(x.submissions, k);
    var base, rest := R.BasePool(total, p.BaseShareBps()), R.WeightedPool(total, p.BaseShareBps());
    if !Bonded(x, pay.to) then pay.amount == R.BaseShares(base, |names|)[i]
    else R.Accurate(pay.amount, |names|, R.TotalWeight(names, Weights(x, names)), base, rest, Standing(x, pay.to))
  }

  lemma FairAt(x: Records, p: Params, k: AssignmentId, total: nat, i: nat, pay: Payment)
    requires i < |Successful(x.submissions, k)| && pay.to == Successful(x.submissions, k)[i]
    requires pay.amount == R.Get(SplitOf(x, p, k, total).payouts, pay.to)
    ensures FairPayment(x, p, k, total, i, pay)
  {
    var names := Successful(x.submissions, k);
    var base, rest := R.BasePool(total, p.BaseShareBps()), R.WeightedPool(total, p.BaseShareBps());
    WeightsExact(x, names, pay.to);
    if Bonded(x, pay.to) {
      R.PayoutAccuracy(base, rest, names, Weights(x, names), i);
    } else {
      R.UnweightedPayout(base, rest, names, Weights(x, names), i);
    }
  }

  /** An assignment pays exactly the verifiers that revealed a pass, each once, a positive and fair amount. */
  lemma PassersPaid(x: Records, p: Params, k: AssignmentId, total: nat, v: string)
    requires total > 0 && VerifierPayments(x, p, k, total).Ok?
    ensures var ps := VerifierPayments(x, p, k, total).value;
      && (Passed(x.submissions, k, v) <==> exists i :: 0 <= i < |ps| && ps[i].to == v)
      && (forall i, j :: 0 <= i < j < |ps| ==> ps[i].to != ps[j].to)
      && |ps| == |Successful(x.submissions, k)|
      && (forall i :: 0 <= i < |ps| ==> ps[i].amount > 0 && FairPayment(x, p, k, total, i, ps[i]))
  {
    PaymentsAre(x, p, k, total);
    PassersAreSuccessful(x.submissions, k, v);
    var ps, names := VerifierPayments(x, p, k, total).value, Successful(x.submissions, k);
    if v in names {
      var i :| 0 <= i < |names| && names[i] == v;
      assert ps[i].to == v;
    }
    forall i | 0 <= i < |ps|
      ensures ps[i].amount > 0 && FairPayment(x, p, k, total, i, ps[i])
    {
      FairAt(x, p, k, total, i, ps[i]);
    }
  }

  // What settling a round pays to each user.

  /** The verified assignments of round r. */
  function VerifiedIn(docket: Docket, r: int): set<AssignmentId> {
    set k | k in docket && k.round == r && docket[k].verified
  }

  lemma {:induction false} VerifiedMembers(docket: Docket, ks: seq<AssignmentId>, k: AssignmentId)
    requires NoDup(ks)
    ensures NoDup(Verified(docket, ks))
    ensures k in Verified(docket, ks) <==> k in ks && k in docket && docket[k].verified
  {
    if ks != [] {
      var n := |ks| - 1;
      VerifiedMembers(docket, ks[..n], k);
      assert ks == ks[..n] + [ks[n]] && ks[n] !in ks[..n];
    }
  }

  lemma ActiveAre(x: Records, r: int)
    ensures Enumerates(Active(x, r), VerifiedIn(x.docket, r))
    ensures |Active(x, r)| == |VerifiedIn(x.docket, r)| && |Keys(x, r)| == |RoundKeys(x.docket, r)|
  {
    EnumerationLength(Keys(x, r), RoundKeys(x.docket, r));
    VerifiedMembers(x.docket, Keys(x, r), AssignmentId(0, ""));
    forall k
      ensures k in Active(x, r) <==> k in VerifiedIn(x.docket, r)
    {
      VerifiedMembers(x.docket, Keys(x, r), k);
    }
    EnumerationLength(Active(x, r), VerifiedIn(x.docket, r));
  }

  /** The claim of the website of k on its part of the publisher pool. */
  function ClaimOn(x: Records, p: Params, k: AssignmentId, base: nat): int
    requires k in x.docket
  {
    E.Claimable(base, TallyOf(x.submissions, k, x.docket[k]).verifiedSimilar, p.RequiredLinks(), p.MinRewardBps())
  }

  predicate Owns(x: Records, k: AssignmentId, user: string) {
    k.domain in x.websites && x.websites[k.domain].owner == user
  }

  /** The claims on base of the websites of user, by assignment. */
  ghost function Claims(x: Records, p: Params, base: nat, user: string): map<AssignmentId, int> {
    map k | k in x.docket && Owns(x, k, user) :: ClaimOn(x, p, k, base)
  }

  /** The entry of user in the split of total for assignment k. */
  function RewardFor(x: Records, p: Params, k: AssignmentId, total: nat, user: string): int {
    R.Get(SplitOf(x, p, k, total).payouts, user)
  }

  /** What the splits of total pay to user, by assignment that it passed. */
  ghost function Rewards(x: Records, p: Params, total: nat, user: string): map<AssignmentId, int> {
    map k | k in x.docket && total > 0 && Passed(x.submissions, k, user) :: RewardFor(x, p, k, total, user)
  }

  lemma PublisherPays(x: Records, p: Params, k: AssignmentId, base: nat, user: string)
    requires k in x.docket
    ensures SumTo(PublisherPayment(x, p, k, base), user)
         == if Owns(x, k, user) then ClaimOn(x, p, k, base) else 0
  {
    var ps := PublisherPayment(x, p, k, base);
    if ps != [] { assert ps[..0] == []; }
  }

  lemma {:induction false} PublishersPay(x: Records, p: Params, active: seq<AssignmentId>, base: nat, user: string)
    requires NoDup(active) && forall i :: 0 <= i < |active| ==> active[i] in x.docket
    ensures SumTo(PublisherPayments(x, p, active, base), user) == SumMap(Restrict(Claims(x, p, base, user), Elems(active)))
  {
    if active == [] {
      assert Restrict(Claims(x, p, base, user), Elems(active)) == map[];
    } else {
      var n := |active| - 1;
      var last := active[n];
      PublishersPay(x, p, active[..n], base, user);
      SumToConcat(PublisherPayments(x, p, active[..n], base), PublisherPayment(x, p, last, base), user);
      PublisherPays(x, p, last, base, user);
      PrefixElems(active, n + 1);
      FullPrefix(active);
      RestrictGrows(Claims(x, p, base, user), Elems(active[..n]), last, Elems(active));
    }
  }

  lemma VerifierPays(x: Records, p: Params, k: AssignmentId, total: nat, user: string)
    requires VerifierPayments(x, p, k, total).Ok?
    ensures SumTo(VerifierPayments(x, p, k, total).value, user)
         == if total > 0 && Passed(x.submissions, k, user) then RewardFor(x, p, k, total, user) else 0
  {
    if total > 0 {
      PaymentsAre(x, p, k, total);
      PassersAreSuccessful(x.submissions, k, user);
      SumToOnce(VerifierPayments(x, p, k, total).value, Successful(x.submissions, k), user);
    }
  }

  lemma {:induction false} VerifiersPay(x: Records, p: Params, active: seq<AssignmentId>, per: nat, user: string)
    requires NoDup(active) && AllVerifierPayments(x, p, active, per).Ok? && forall i :: 0 <= i < |active| ==> active[i] in x.docket
    ensures SumTo(AllVerifierPayments(x, p, active, per).value, user) == SumMap(Restrict(Rewards(x, p, per, user), Elems(active)))
  {
    if active == [] {
      assert Restrict(Rewards(x, p, per, user), Elems(active)) == map[];
    } else {
      var n := |active| - 1;
      var last := active[n];
      VerifiersPay(x, p, active[..n], per, user);
      SumToConcat(AllVerifierPayments(x, p, active[..n], per).value, VerifierPayments(x, p, last, per).value, user);
      VerifierPays(x, p, last, per, user);
      PrefixElems(active, n + 1);
      FullPrefix(active);
      RestrictGrows(Rewards(x, p, per, user), Elems(active[..n]), last, Elems(active));
    }
  }

  /** Each of n equal parts of the pool, rounded down. */
  function Part(pool: nat, n: nat): nat {
    if n == 0 then 0 else ShareFits(pool, n, n); pool / n
  }

  lemma SpendPays(t: Treasury, ps: seq<Payment>, budget: nat, user: string, d: string)
    requires SumPayments(ps) <= budget && Spend(t, ps, budget).Ok?
    ensures Balance(Spend(t, ps, budget).value.bank, User(user), d)
         == Balance(t.bank, User(user), d) + (if d == REWARD_DENOM then SumTo(ps, user) else 0)
  {
    SendAllPays(t.bank, TOKENOMICS, REWARD_DENOM, ps, user, d);
  }

  /**
   * Settling a round pays every user exactly its publishers' claims on equal parts of the publisher pool, one per
   * verified assignment of the round, and its verifier rewards out of equal parts of the verifier pool, one per
   * assignment of the round, for the verified ones that it passed; and nothing in any other denomination.
   */
  lemma RoundPays(t: Treasury, x: Records, p: Params, r: int, user: string, d: string)
    requires p.Valid() && SettlePayments(t, x, p, r).Ok?
    ensures E.SettlementPools(p).Some?
    ensures var pools, active := E.SettlementPools(p).value, VerifiedIn(x.docket, r);
      var all := set k | k in x.docket && k.round == r;
      Balance(SettlePayments(t, x, p, r).value.bank, User(user), d)
      == Balance(t.bank, User(user), d)
         + (if d != REWARD_DENOM then 0
            else SumMap(Restrict(Claims(x, p, Part(pools.publisher, |active|), user), active))
                 + SumMap(Restrict(Rewards(x, p, Part(pools.verifier, |all|), user), active)))
  {
    var pools := E.SettlementPools(p).value;
    ActiveAre(x, r);
    var active := Active(x, r);
    EnumerationElems(active, VerifiedIn(x.docket, r));
    FullPrefix(active);
    assert RoundKeys(x.docket, r) == set k | k in x.docket && k.round == r;
    PublishersPay(x, p, active, Share(pools.publisher, |active|), user);
    VerifiersPay(x, p, active, Share(pools.verifier, |Keys(x, r)|), user);
    RoundBatchesPay(EnsurePool(t, E.Target(p)), x, p, r, pools, user, d);
  }

  lemma RoundBatchesPay(f: Treasury, x: Records, p: Params, r: int, pools: E.Pools, user: string, d: string)
    requires PayRound(f, x, p, r, pools).Ok?
    ensures VerifierBatch(x, p, r, pools.verifier).Ok?
    ensures Balance(PayRound(f, x, p, r, pools).value.bank, User(user), d)
         == Balance(f.bank, User(user), d)
            + (if d != REWARD_DENOM then 0
               else SumTo(PublisherBatch(x, p, r, pools.publisher), user) + SumTo(VerifierBatch(x, p, r, pools.verifier).value, user))
  {
    PublisherBatchFits(x, p, r, pools.publisher);
    VerifierBatchFits(x, p, r, pools.verifier);
    var u := Spend(f, PublisherBatch(x, p, r, pools.publisher), pools.publisher).value;
    SpendPays(f, PublisherBatch(x, p, r, pools.publisher), pools.publisher, user, d);
    SpendPays(u, VerifierBatch(x, p, r, pools.verifier).value, pools.verifier, user, d);
  }
}
