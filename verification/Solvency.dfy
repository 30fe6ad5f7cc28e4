// The emission account over a whole run (x/tokenomics/keeper.go, x/registry/verification_rounds.go).
module Solvency {
  import opened Base
  import opened Arith
  import opened Bank
  import opened PublisherParams
  import opened ChainState
  import opened DrandSchedule
  import opened Payments
  import E = Emission

  /** The account holds what was minted and not yet paid or burned, plus outside deposits, and nothing else. */
  ghost predicate Balanced(t: Treasury, gifts: Ledger) {
    forall d :: Balance(t.bank, TOKENOMICS, d)
             == Balance(gifts, TOKENOMICS, d) + (if d == REWARD_DENOM then t.funded - t.paid - t.burned else 0)
  }

  /** After n settled rounds: the pool was minted once, and each round took exactly one round's pools. */
  ghost predicate PoolOk(t: Treasury, n: nat, p: Params, gifts: Ledger)
    requires p.roundInterval > 0
  {
    && Balanced(t, gifts)
    && (n == 0 ==> t.funded == 0)
    && (n > 0 ==> t.funded == E.Target(p))
    && t.paid + t.burned == n * E.PerRound(p)
  }

  lemma EnsurePoolKeeps(t: Treasury, n: nat, p: Params, gifts: Ledger)
    requires p.roundInterval > 0 && PoolOk(t, n, p, gifts)
    ensures Balanced(EnsurePool(t, E.Target(p)), gifts)
    ensures EnsurePool(t, E.Target(p)).funded == E.Target(p)
    ensures SameElsewhere(t.bank, EnsurePool(t, E.Target(p)).bank, TOKENOMICS)
  {
  }

  lemma SpentBalanced(t: Treasury, u: Treasury, sum: nat, gifts: Ledger)
    requires Balanced(t, gifts) && u.Pool() == t.Pool() - sum && u.funded == t.funded
    requires u.paid + u.burned == t.paid + t.burned + sum
    requires forall d :: d != REWARD_DENOM ==> Balance(u.bank, TOKENOMICS, d) == Balance(t.bank, TOKENOMICS, d)
    ensures Balanced(u, gifts)
  {
  }

  /** Settling one more round keeps the account in balance and touches no other module account. */
  lemma SettlePaymentsKeeps(t: Treasury, x: Records, n: nat, p: Params, r: int, gifts: Ledger)
    requires p.roundInterval > 0 && PoolOk(t, n, p, gifts) && SettlePayments(t, x, p, r).Ok?
    ensures PoolOk(SettlePayments(t, x, p, r).value, n + 1, p, gifts)
    ensures SameElsewhere(t.bank, SettlePayments(t, x, p, r).value.bank, TOKENOMICS)
  {
    var pools := E.SettlementPools(p).value;
    var f := EnsurePool(t, E.Target(p));
    var u := SettlePayments(t, x, p, r).value;
    EnsurePoolKeeps(t, n, p, gifts);
    PayRoundConserves(f, x, p, r, pools);
    forall a: Account, d | a.Module?
      ensures a != TOKENOMICS || d != REWARD_DENOM ==> Balance(u.bank, a, d) == Balance(f.bank, a, d)
    {
      PayRoundFrame(f, x, p, r, pools, a, d);
    }
    SpentBalanced(f, u, pools.Sum(), gifts);
    Distribute(n, 1, E.PerRound(p));
  }

  /** A round settles if and only if the account, topped up, covers both pools and every verifier has an entry. */
  lemma SettlesIff(t: Treasury, x: Records, n: nat, p: Params, r: int, gifts: Ledger)
    requires p.roundInterval > 0 && PoolOk(t, n, p, gifts)
    ensures SettlePayments(t, x, p, r).Ok? <==>
      && E.SettlementPools(p).Some?
      && VerifierBatch(x, p, r, E.SettlementPools(p).value.verifier).Ok?
      && (n + 1) * E.PerRound(p) <= E.Target(p) + Balance(gifts, TOKENOMICS, REWARD_DENOM)
  {
    if E.SettlementPools(p).Some? {
      var f := EnsurePool(t, E.Target(p));
      EnsurePoolKeeps(t, n, p, gifts);
      PayRoundConserves(f, x, p, r, E.SettlementPools(p).value);
      Distribute(n, 1, E.PerRound(p));
    }
  }

  /** Emission solvency over the run: with affordable parameters no round that fits into the emission period lacks funds. */
  lemma RunSolvent(t: Treasury, x: Records, n: nat, p: Params, r: int, gifts: Ledger)
    requires p.roundInterval > 0 && PoolOk(t, n, p, gifts)
    requires E.SettlementPools(p).Some? && E.Affordable(p) && n < E.Room(p)
    requires VerifierBatch(x, p, r, E.SettlementPools(p).value.verifier).Ok?
    ensures SettlePayments(t, x, p, r).Ok?
  {
    SettlesIff(t, x, n, p, r, gifts);
    E.AffordableUpTo(p, n + 1);
  }

  // Distinct rounds take time.

  /** Index of a grid point. */
  function GridIndex(t: int, interval: int): int
    requires interval > 0
  {
    (t + YEAR_ONE) / interval
  }

  lemma {:induction false} DistinctInRange(xs: seq<int>, lo: int, hi: int)
    requires NoDup(xs) && lo <= hi && forall i :: 0 <= i < |xs| ==> lo <= xs[i] < hi
    ensures |xs| <= hi - lo
    decreases hi - lo
  {
    if xs == [] { return; }
    assert lo <= xs[0] < hi;
    if hi - 1 in xs {
      var i :| 0 <= i < |xs| && xs[i] == hi - 1;
      DistinctInRange(xs[..i] + xs[i + 1..], lo, hi - 1);
    } else {
      assert forall i :: 0 <= i < |xs| ==> xs[i] in xs;
      DistinctInRange(xs, lo, hi - 1);
    }
  }

  /** Distinct rounds within (from, to] number at most the intervals that fit, rounded up. */
  lemma RoundsTakeTime(rounds: seq<int>, from: int, to: int, interval: int)
    requires interval > 0 && from <= to && NoDup(rounds)
    requires forall i :: 0 <= i < |rounds| ==> from < rounds[i] <= to && OnGrid(rounds[i], interval)
    ensures |rounds| * interval < to - from + interval
  {
    if rounds == [] { return; }
    var lo, hi := GridIndex(from, interval) + 1, GridIndex(to, interval) + 1;
    var indices := seq(|rounds|, i requires 0 <= i < |rounds| => GridIndex(rounds[i], interval));
    forall i | 0 <= i < |rounds|
      ensures lo <= indices[i] < hi && indices[i] * interval == rounds[i] + YEAR_ONE
    {
      GridPoint(from, rounds[i], to, interval);
    }
    assert lo <= indices[0] < hi;
    DistinctInRange(indices, lo, hi);
    FloorBounds(from + YEAR_ONE, interval);
    FloorBounds(to + YEAR_ONE, interval);
    MulMono(|rounds|, hi - lo, interval);
    DistributeMinus(hi, lo, interval);
    Distribute(hi - 1, 1, interval);
  }

  lemma GridPoint(from: int, t: int, to: int, interval: int)
    requires interval > 0 && from < t <= to && OnGrid(t, interval)
    ensures GridIndex(from, interval) < GridIndex(t, interval) <= GridIndex(to, interval)
    ensures GridIndex(t, interval) * interval == t + YEAR_ONE
  {
    DivMod(t + YEAR_ONE, interval);
    FloorMono(t + YEAR_ONE, to + YEAR_ONE, interval);
    FloorBounds(from + YEAR_ONE, interval);
    var a, b := GridIndex(from, interval), GridIndex(t, interval);
    if b <= a { MulMono(b, a, interval); }
  }
}
