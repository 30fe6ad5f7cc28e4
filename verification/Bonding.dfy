// Verifier bonds and their escrow (x/verifiers/keeper.go).
module Bonding {
  import opened Base
  import opened Sums
  import opened Bank
  import opened ChainState
  import opened Domains

  datatype BondMsg = BondMsg(verifier: string, denom: string, amount: int)

  /** What bonding touches: the bank, the bond records, and the remainders dropped with their record. */
  datatype Escrow = Escrow(bank: Ledger, bonds: map<string, nat>, stranded: nat)

  /** The checks shared by BondCoins and UnbondCoins; an empty denomination stands for the bond denomination. */
  predicate WellFormed(p: BondParams, m: BondMsg) {
    && IsAddress(m.verifier)
    && (m.denom == "" || m.denom == p.denom)
    && m.amount > 0
  }

  function Bonded(e: Escrow, verifier: string): nat {
    if verifier in e.bonds then e.bonds[verifier] else 0
  }

  function BondCoins(e: Escrow, p: BondParams, m: BondMsg): Result<Escrow, Error> {
    if !WellFormed(p, m) then Err(Invalid)
    else
      match Send(e.bank, User(m.verifier), VERIFIERS, p.denom, m.amount)
      case None => Err(InsufficientFunds)
      case Some(bank) =>
        if Bonded(e, m.verifier) + m.amount < p.minBond then Err(Invalid)
        else Ok(Escrow(bank, e.bonds[m.verifier := Bonded(e, m.verifier) + m.amount], e.stranded))
  }

  /** A bond that would fall below the minimum is removed; what is left of it stays in escrow unrecorded. */
  function UnbondCoins(e: Escrow, p: BondParams, m: BondMsg): Result<Escrow, Error> {
    if !WellFormed(p, m) then Err(Invalid)
    else if m.verifier !in e.bonds then Err(NotFound)
    else if e.bonds[m.verifier] < m.amount then Err(Invalid)
    else
      match Send(e.bank, VERIFIERS, User(m.verifier), p.denom, m.amount)
      case None => Err(InsufficientFunds)
      case Some(bank) =>
        var rest := e.bonds[m.verifier] - m.amount;
        if rest < p.minBond then Ok(Escrow(bank, e.bonds - {m.verifier}, e.stranded + rest))
        else Ok(Escrow(bank, e.bonds[m.verifier := rest], e.stranded))
  }

  /** The verifiers account holds held coins of the bond denomination and outside deposits, and nothing else. */
  ghost predicate Holds(bank: Ledger, denom: string, held: int, gifts: Ledger) {
    forall d :: Balance(bank, VERIFIERS, d) == Balance(gifts, VERIFIERS, d) + (if d == denom then held else 0)
  }

  /** It holds the recorded bonds and the stranded remainders; with a minimum bond of at most 1 nothing strands. */
  ghost predicate BondsOk(e: Escrow, p: BondParams, gifts: Ledger) {
    && (forall v :: v in e.bonds ==> e.bonds[v] >= p.minBond && IsAddress(v))
    && (p.minBond <= 1 ==> e.stranded == 0)
    && Holds(e.bank, p.denom, SumMap(e.bonds) + e.stranded, gifts)
  }

  lemma DepositHolds(bank: Ledger, denom: string, held: int, gifts: Ledger, from: string, n: nat)
    requires Holds(bank, denom, held, gifts) && Send(bank, User(from), VERIFIERS, denom, n).Some?
    ensures Holds(Send(bank, User(from), VERIFIERS, denom, n).value, denom, held + n, gifts)
    ensures SameElsewhere(bank, Send(bank, User(from), VERIFIERS, denom, n).value, VERIFIERS)
  {
  }

  lemma WithdrawHolds(bank: Ledger, denom: string, held: int, gifts: Ledger, to: string, n: nat)
    requires Holds(bank, denom, held, gifts) && Send(bank, VERIFIERS, User(to), denom, n).Some?
    ensures Holds(Send(bank, VERIFIERS, User(to), denom, n).value, denom, held - n, gifts)
    ensures SameElsewhere(bank, Send(bank, VERIFIERS, User(to), denom, n).value, VERIFIERS)
  {
  }

  lemma BondCoinsKeeps(e: Escrow, p: BondParams, m: BondMsg, gifts: Ledger)
    requires BondsOk(e, p, gifts) && BondCoins(e, p, m).Ok?
    ensures BondsOk(BondCoins(e, p, m).value, p, gifts)
  {
    SumMapUpdate(e.bonds, m.verifier, Bonded(e, m.verifier) + m.amount);
    DepositHolds(e.bank, p.denom, SumMap(e.bonds) + e.stranded, gifts, m.verifier, m.amount);
  }

  /** Neither message moves any other module account. */
  lemma OtherAccountsKept(e: Escrow, p: BondParams, m: BondMsg)
    ensures BondCoins(e, p, m).Ok? ==> SameElsewhere(e.bank, BondCoins(e, p, m).value.bank, VERIFIERS)
    ensures UnbondCoins(e, p, m).Ok? ==> SameElsewhere(e.bank, UnbondCoins(e, p, m).value.bank, VERIFIERS)
  {
  }

  lemma UnbondCoinsKeeps(e: Escrow, p: BondParams, m: BondMsg, gifts: Ledger)
    requires BondsOk(e, p, gifts) && UnbondCoins(e, p, m).Ok?
    ensures BondsOk(UnbondCoins(e, p, m).value, p, gifts)
  {
    WithdrawHolds(e.bank, p.denom, SumMap(e.bonds) + e.stranded, gifts, m.verifier, m.amount);
    var rest := e.bonds[m.verifier] - m.amount;
    if rest < p.minBond { SumMapRemove(e.bonds, m.verifier); } else { SumMapUpdate(e.bonds, m.verifier, rest); }
  }

  /** Unbonding succeeds exactly for a well-formed request of at most the recorded bond: the escrow never falls short. */
  lemma UnbondNeverShort(e: Escrow, p: BondParams, m: BondMsg, gifts: Ledger)
    requires BondsOk(e, p, gifts)
    ensures UnbondCoins(e, p, m).Ok? <==> WellFormed(p, m) && m.amount <= Bonded(e, m.verifier)
  {
    if m.verifier in e.bonds { SumMapAtLeast(e.bonds, m.verifier); }
  }

  /**
   * Bonding and then unbonding the same amount gives every balance and every bond record back, except that a
   * first-time bonder keeps an empty record when the minimum bond is 0.
   */
  lemma BondThenUnbond(e: Escrow, p: BondParams, m: BondMsg, gifts: Ledger)
    requires BondsOk(e, p, gifts) && BondCoins(e, p, m).Ok?
    ensures var r := UnbondCoins(BondCoins(e, p, m).value, p, m);
      && r.Ok? && r.value.stranded == e.stranded
      && r.value.bonds == (if m.verifier !in e.bonds && p.minBond == 0 then e.bonds[m.verifier := 0] else e.bonds)
      && forall a, d :: Balance(r.value.bank, a, d) == Balance(e.bank, a, d)
  {
    var t := BondCoins(e, p, m).value;
    BondCoinsKeeps(e, p, m, gifts);
    UnbondNeverShort(t, p, m, gifts);
    if m.verifier in e.bonds {
      assert t.bonds[m.verifier := e.bonds[m.verifier]] == e.bonds;
    } else {
      assert t.bonds - {m.verifier} == e.bonds;
      assert t.bonds[m.verifier := 0] == e.bonds[m.verifier := 0];
    }
  }

  /** A well-formed request is bonded if and only if the sender has the coins and its bond reaches the minimum. */
  lemma BondedExact(e: Escrow, p: BondParams, m: BondMsg)
    ensures var bond := (if m.verifier in e.bonds then e.bonds[m.verifier] else 0) + m.amount;
      && (BondCoins(e, p, m).Ok? <==>
            && IsAddress(m.verifier) && m.denom in {"", p.denom} && 0 < m.amount <= Balance(e.bank, User(m.verifier), p.denom)
            && p.minBond <= bond)
      && (BondCoins(e, p, m).Ok? ==>
            var t := BondCoins(e, p, m).value;
            && t.bonds == e.bonds[m.verifier := bond] && t.stranded == e.stranded
            && Balance(t.bank, User(m.verifier), p.denom) == Balance(e.bank, User(m.verifier), p.denom) - m.amount
            && Balance(t.bank, VERIFIERS, p.denom) == Balance(e.bank, VERIFIERS, p.denom) + m.amount)
  {
  }

  /** Unbonding pays exactly the amount back; the record keeps the rest, or goes when the rest is below the minimum. */
  lemma UnbondedExact(e: Escrow, p: BondParams, m: BondMsg)
    requires UnbondCoins(e, p, m).Ok?
    ensures m.verifier in e.bonds && 0 < m.amount <= e.bonds[m.verifier]
    ensures var t, rest := UnbondCoins(e, p, m).value, e.bonds[m.verifier] - m.amount;
      && t.bonds == (if rest < p.minBond then e.bonds - {m.verifier} else e.bonds[m.verifier := rest])
      && t.stranded == e.stranded + (if rest < p.minBond then rest else 0)
      && Balance(t.bank, User(m.verifier), p.denom) == Balance(e.bank, User(m.verifier), p.denom) + m.amount
      && Balance(t.bank, VERIFIERS, p.denom) == Balance(e.bank, VERIFIERS, p.denom) - m.amount
  {
  }
}
