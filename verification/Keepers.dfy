// The bank, tokenomics and verifiers keepers as objects (x/tokenomics/keeper.go, x/verifiers/keeper.go).
module Keepers {
  import opened Base
  import opened Domains
  import opened Bank
  import opened ChainState
  import B = Bonding
  import P = Payments

  class BankKeeper {
    var balances: Ledger

    constructor (initial: Ledger)
      ensures balances == initial
    {
      balances := initial;
    }

    method SendCoins(from: Account, to: Account, denom: string, amount: nat) returns (ok: bool)
      modifies this
      ensures ok == Send(old(balances), from, to, denom, amount).Some?
      ensures balances == if ok then Send(old(balances), from, to, denom, amount).value else old(balances)
    {
      ok := amount <= Balance(balances, from, denom);
      if ok {
        balances := Debit(balances, from, denom, amount);
        balances := Credit(balances, to, denom, amount);
      }
    }

    method MintCoins(to: Account, denom: string, amount: nat)
      modifies this
      ensures balances == Credit(old(balances), to, denom, amount)
    {
      balances := Credit(balances, to, denom, amount);
    }

    method BurnCoins(from: Account, denom: string, amount: nat) returns (ok: bool)
      modifies this
      ensures ok == Burn(old(balances), from, denom, amount).Some?
      ensures balances == if ok then Burn(old(balances), from, denom, amount).value else old(balances)
    {
      ok := amount <= Balance(balances, from, denom);
      if ok { balances := Debit(balances, from, denom, amount); }
    }
  }

  /** paid and burned are history. */
  class TokenomicsKeeper {
    const bank: BankKeeper
    var funded: nat
    ghost var paid: nat
    ghost var burned: nat

    constructor (bank: BankKeeper)
      ensures this.bank == bank && funded == 0 && paid == 0 && burned == 0
    {
      this.bank := bank;
      funded := 0;
      paid, burned := 0, 0;
    }

    ghost function Treasury(): P.Treasury
      reads this, bank
    {
      P.Treasury(bank.balances, funded, paid, burned)
    }

    /** Mints the missing part of the target once. */
    method EnsureEmissionPool(target: nat)
      modifies this`funded, bank
      ensures Treasury() == P.EnsurePool(old(Treasury()), target)
    {
      if target == 0 || funded >= target { return; }
      bank.MintCoins(TOKENOMICS, REWARD_DENOM, target - funded);
      funded := target;
    }

    method SendFromPool(to: string, amount: nat) returns (ok: bool)
      modifies this`paid, bank
      ensures ok == Send(old(bank.balances), TOKENOMICS, User(to), REWARD_DENOM, amount).Some?
      ensures ok ==> bank.balances == Send(old(bank.balances), TOKENOMICS, User(to), REWARD_DENOM, amount).value
      ensures ok ==> paid == old(paid) + amount
      ensures !ok ==> Treasury() == old(Treasury())
    {
      ok := bank.SendCoins(TOKENOMICS, User(to), REWARD_DENOM, amount);
      if ok { paid := paid + amount; }
    }

    method BurnFromPool(amount: nat) returns (ok: bool)
      modifies this`burned, bank
      ensures ok == P.BurnRest(old(Treasury()), amount).Ok?
      ensures ok ==> Treasury() == P.BurnRest(old(Treasury()), amount).value
      ensures !ok ==> Treasury() == old(Treasury())
    {
      if amount == 0 { return true; }
      ok := bank.BurnCoins(TOKENOMICS, REWARD_DENOM, amount);
      if ok { burned := burned + amount; }
    }
  }

  /** stranded is history: remainders dropped with their record. */
  class VerifiersKeeper {
    const bank: BankKeeper
    const params: BondParams
    var bonds: map<string, nat>
    ghost var stranded: nat

    constructor (bank: BankKeeper, params: BondParams)
      ensures this.bank == bank && this.params == params && bonds == map[] && stranded == 0
    {
      this.bank, this.params := bank, params;
      bonds := map[];
      stranded := 0;
    }

    ghost function Escrow(): B.Escrow
      reads this, bank
    {
      B.Escrow(bank.balances, bonds, stranded)
    }

    method BondCoins(m: B.BondMsg) returns (err: Option<Error>)
      modifies this`bonds, bank
      ensures err == None ==> B.BondCoins(old(Escrow()), params, m) == Ok(Escrow())
      ensures err.Some? ==> B.BondCoins(old(Escrow()), params, m) == Err(err.value)
    {
      if !B.WellFormed(params, m) { return Some(Invalid); }
      var ok := bank.SendCoins(User(m.verifier), VERIFIERS, params.denom, m.amount);
      if !ok { return Some(InsufficientFunds); }
      var bond := m.amount;
      if m.verifier in bonds { bond := bonds[m.verifier] + m.amount; }
      if bond < params.minBond { return Some(Invalid); }
      bonds := bonds[m.verifier := bond];
      return None;
    }

    method UnbondCoins(m: B.BondMsg) returns (err: Option<Error>)
      modifies this`bonds, this`stranded, bank
      ensures err == None ==> B.UnbondCoins(old(Escrow()), params, m) == Ok(Escrow())
      ensures err.Some? ==> B.UnbondCoins(old(Escrow()), params, m) == Err(err.value)
    {
      if !B.WellFormed(params, m) { return Some(Invalid); }
      if m.verifier !in bonds { return Some(NotFound); }
      if bonds[m.verifier] < m.amount { return Some(Invalid); }
      var ok := bank.SendCoins(VERIFIERS, User(m.verifier), params.denom, m.amount);
      if !ok { return Some(InsufficientFunds); }
      var rest := bonds[m.verifier] - m.amount;
      if rest < params.minBond {
        bonds := bonds - {m.verifier};
        stranded := stranded + rest;
      } else {
        bonds := bonds[m.verifier := rest];
      }
      return None;
    }
  }
}
