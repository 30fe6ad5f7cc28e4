// The bank: balances by account and denomination, with mint, burn and send.
module Bank {
  import opened Base
  import opened Sums

  /** A user account or a module account; module accounts have no key and never sign. */
  datatype Account = User(addr: string) | Module(name: string)

  const REGISTRY := Module("registry")
  const VERIFIERS := Module("verifiers")
  const TOKENOMICS := Module("tokenomics")

  datatype Holding = Holding(account: Account, denom: string)

  type Ledger = map<Holding, nat>

  function Balance(b: Ledger, a: Account, d: string): nat {
    if Holding(a, d) in b then b[Holding(a, d)] else 0
  }

  function Credit(b: Ledger, a: Account, d: string, n: nat): Ledger {
    b[Holding(a, d) := Balance(b, a, d) + n]
  }

  function Debit(b: Ledger, a: Account, d: string, n: nat): Ledger
    requires n <= Balance(b, a, d)
  {
    b[Holding(a, d) := Balance(b, a, d) - n]
  }

  /** Send fails exactly when the sender is short. */
  function Send(b: Ledger, from: Account, to: Account, d: string, n: nat): Option<Ledger> {
    if n > Balance(b, from, d) then None else Some(Credit(Debit(b, from, d, n), to, d, n))
  }

  function Burn(b: Ledger, a: Account, d: string, n: nat): Option<Ledger> {
    if n > Balance(b, a, d) then None else Some(Debit(b, a, d, n))
  }

  /** Balances of all module accounts but one are the same. */
  ghost predicate SameElsewhere(before: Ledger, after: Ledger, changed: Account) {
    forall a: Account, d :: a.Module? && a != changed ==> Balance(after, a, d) == Balance(before, a, d)
  }

  // Total supply of one denomination.

  ghost function OfDenom(b: Ledger, d: string): map<Holding, int> {
    map h | h in b && h.denom == d :: b[h]
  }

  ghost function Supply(b: Ledger, d: string): int {
    SumMap(OfDenom(b, d))
  }

  lemma WriteSupply(b: Ledger, h: Holding, n: nat, d: string)
    ensures Supply(b[h := n], d) == Supply(b, d) + (if h.denom == d then n - Balance(b, h.account, h.denom) else 0)
  {
    assert h == Holding(h.account, h.denom);
    if h.denom == d {
      SumMapUpdate(OfDenom(b, d), h, n);
      assert OfDenom(b[h := n], d) == OfDenom(b, d)[h := n];
    } else {
      assert OfDenom(b[h := n], d) == OfDenom(b, d);
    }
  }

  lemma CreditSupply(b: Ledger, a: Account, e: string, n: nat, d: string)
    ensures Supply(Credit(b, a, e, n), d) == Supply(b, d) + (if e == d then n else 0)
  {
    WriteSupply(b, Holding(a, e), Balance(b, a, e) + n, d);
  }

  lemma DebitSupply(b: Ledger, a: Account, e: string, n: nat, d: string)
    requires n <= Balance(b, a, e)
    ensures Supply(Debit(b, a, e, n), d) == Supply(b, d) - (if e == d then n else 0)
  {
    WriteSupply(b, Holding(a, e), Balance(b, a, e) - n, d);
  }

  /** Sending moves coins without creating or destroying any. */
  lemma SendSupply(b: Ledger, from: Account, to: Account, e: string, n: nat, d: string)
    requires n <= Balance(b, from, e)
    ensures Supply(Send(b, from, to, e, n).value, d) == Supply(b, d)
  {
    DebitSupply(b, from, e, n, d);
    CreditSupply(Debit(b, from, e, n), to, e, n, d);
  }

  // A batch of payments out of one account.

  datatype Payment = Payment(to: string, amount: nat)

  function SumPayments(ps: seq<Payment>): nat {
    if ps == [] then 0 else SumPayments(ps[..|ps| - 1]) + ps[|ps| - 1].amount
  }

  function SendAll(b: Ledger, from: Account, d: string, ps: seq<Payment>): Option<Ledger> {
    if ps == [] then Some(b)
    else
      var last := ps[|ps| - 1];
      match SendAll(b, from, d, ps[..|ps| - 1])
      case None => None
      case Some(b') => Send(b', from, User(last.to), d, last.amount)
  }

  /** A batch goes through if and only if the account covers its sum, which it then loses exactly. */
  lemma {:induction false} SendAllCovers(b: Ledger, from: Account, d: string, ps: seq<Payment>)
    requires from.Module?
    ensures SendAll(b, from, d, ps).Some? <==> SumPayments(ps) <= Balance(b, from, d)
    ensures SendAll(b, from, d, ps).Some? ==>
      Balance(SendAll(b, from, d, ps).value, from, d) == Balance(b, from, d) - SumPayments(ps)
  {
    if ps != [] { SendAllCovers(b, from, d, ps[..|ps| - 1]); }
  }

  /** It touches no other module account and no other denomination, and keeps the supply. */
  lemma {:induction false} SendAllFrame(b: Ledger, from: Account, d: string, ps: seq<Payment>, a: Account, e: string)
    requires SendAll(b, from, d, ps).Some? && from.Module?
    ensures a.Module? && (a != from || e != d) ==> Balance(SendAll(b, from, d, ps).value, a, e) == Balance(b, a, e)
    ensures Supply(SendAll(b, from, d, ps).value, e) == Supply(b, e)
  {
    if ps != [] {
      var n := |ps| - 1;
      SendAllFrame(b, from, d, ps[..n], a, e);
      SendSupply(SendAll(b, from, d, ps[..n]).value, from, User(ps[n].to), d, ps[n].amount, e);
    }
  }

  lemma {:induction false} SumPaymentsConcat(ps: seq<Payment>, qs: seq<Payment>)
    ensures SumPayments(ps + qs) == SumPayments(ps) + SumPayments(qs)
  {
    if qs == [] {
      assert ps + qs == ps;
    } else {
      var n := |qs| - 1;
      assert (ps + qs)[..|ps + qs| - 1] == ps + qs[..n];
      SumPaymentsConcat(ps, qs[..n]);
    }
  }

  lemma SendAllAppend(b: Ledger, from: Account, d: string, ps: seq<Payment>, q: Payment)
    ensures SendAll(b, from, d, ps).Some? ==>
      SendAll(b, from, d, ps + [q]) == Send(SendAll(b, from, d, ps).value, from, User(q.to), d, q.amount)
    ensures SendAll(b, from, d, ps) == None ==> SendAll(b, from, d, ps + [q]) == None
    ensures SumPayments(ps + [q]) == SumPayments(ps) + q.amount
  {
    assert (ps + [q])[..|ps|] == ps;
  }

  /** A batch that starts after another one. */
  lemma {:induction false} SendAllConcat(b: Ledger, from: Account, d: string, ps: seq<Payment>, qs: seq<Payment>)
    ensures SendAll(b, from, d, ps).Some? ==>
      SendAll(b, from, d, ps + qs) == SendAll(SendAll(b, from, d, ps).value, from, d, qs)
    ensures SendAll(b, from, d, ps) == None ==> SendAll(b, from, d, ps + qs) == None
  {
    if qs == [] {
      assert ps + qs == ps;
    } else {
      var n := |qs| - 1;
      assert (ps + qs)[..|ps + qs| - 1] == ps + qs[..n];
      SendAllConcat(b, from, d, ps, qs[..n]);
    }
  }

  /** What a batch pays to one user. */
  function SumTo(ps: seq<Payment>, user: string): nat {
    if ps == [] then 0
    else
      var last := ps[|ps| - 1];
      SumTo(ps[..|ps| - 1], user) + (if last.to == user then last.amount else 0)
  }

  /** Every user receives exactly what the batch pays to it, in that denomination only. */
  lemma {:induction false} SendAllPays(b: Ledger, from: Account, d: string, ps: seq<Payment>, user: string, e: string)
    requires SendAll(b, from, d, ps).Some? && from.Module?
    ensures Balance(SendAll(b, from, d, ps).value, User(user), e)
         == Balance(b, User(user), e) + (if e == d then SumTo(ps, user) else 0)
  {
    if ps != [] { SendAllPays(b, from, d, ps[..|ps| - 1], user, e); }
  }

  lemma {:induction false} SumToConcat(ps: seq<Payment>, qs: seq<Payment>, user: string)
    ensures SumTo(ps + qs, user) == SumTo(ps, user) + SumTo(qs, user)
  {
    if qs == [] {
      assert ps + qs == ps;
    } else {
      var n := |qs| - 1;
      assert (ps + qs)[..|ps + qs| - 1] == ps + qs[..n];
      SumToConcat(ps, qs[..n], user);
    }
  }

  /** With one payment per name, a user receives its own payment or nothing. */
  lemma {:induction false} SumToOnce(ps: seq<Payment>, names: seq<string>, user: string)
    requires |ps| == |names| && NoDup(names) && forall i :: 0 <= i < |ps| ==> ps[i].to == names[i]
    ensures user !in names ==> SumTo(ps, user) == 0
    ensures forall i :: 0 <= i < |ps| && names[i] == user ==> SumTo(ps, user) == ps[i].amount
  {
    if ps != [] {
      var n := |ps| - 1;
      SumToOnce(ps[..n], names[..n], user);
      if user == names[n] {
        assert user !in names[..n];
      } else if user in names {
        assert forall i :: 0 <= i < n ==> names[..n][i] == names[i] && ps[..n][i] == ps[i];
      }
    }
  }
}
