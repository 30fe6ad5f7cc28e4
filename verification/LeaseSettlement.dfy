// End-of-block lease settlement and the violation of leases on a failed publisher
// (x/registry/lease_settlement.go).
module LeaseSettlement {
  import opened Base
  import opened Folds
  import opened Orders
  import opened Sums
  import opened Bank
  import opened ChainState
  import opened Market

  predicate Due(l: Lease, now: int) {
    l.status == Active && l.ends <= now
  }

  /** One visit of settleLeases; slots and websites are read from s, bank and leases from b. */
  function SettleOne(s: State, b: Book, id: string): Result<Book, Error> {
    if id !in b.leases || !Due(b.leases[id], s.now) then Ok(b)
    else if b.leases[id].slotId !in s.slots then Err(SlotMissing)
    else if s.slots[b.leases[id].slotId].domain !in s.websites then Err(WebsiteMissing)
    else if s.websites[s.slots[b.leases[id].slotId].domain].cooldownUntil > s.now then Refund(b, id, s.now)
    else Payout(b, id, s.now)
  }

  function SettleStep(s: State): (Book, string) -> Result<Book, Error> {
    (b, id) => SettleOne(s, b, id)
  }

  function SettleLeases(s: State): Result<State, Error> {
    var ids := SortedStrings(s.leases.Keys);
    match Fold(SettleStep(s), BookOf(s), ids, |ids|)
    case Err(e) => Err(e)
    case Ok(b) => Ok(WithBook(s, b))
  }

  // What settlement means, lease by lease and account by account.

  predicate InPenalty(s: State, l: Lease) {
    && l.slotId in s.slots && s.slots[l.slotId].domain in s.websites
    && s.websites[s.slots[l.slotId].domain].cooldownUntil > s.now
  }

  /** A due lease is refunded while its publisher is in cooldown and paid out otherwise. */
  function Settled(s: State, l: Lease): Lease {
    if !Due(l, s.now) then l else if InPenalty(s, l) then Refunded(l, s.now) else PaidOut(l, s.now)
  }

  function Recipient(s: State, l: Lease): string {
    if InPenalty(s, l) then l.lessee else l.publisher
  }

  /** l is due and owes its remainder to user in denomination d. */
  predicate Owes(s: State, l: Lease, user: string, d: string) {
    Due(l, s.now) && l.denom == d && Recipient(s, l) == user
  }

  /** What the leases in done owe to user in denomination d. */
  ghost function OwedBy(s: State, done: set<string>, user: string, d: string): map<string, int> {
    map id | id in done && id in s.leases && Owes(s, s.leases[id], user, d) :: s.leases[id].remaining
  }

  /** b is the book of s with exactly the leases in done settled. */
  ghost predicate SettledExactly(s: State, b: Book, done: set<string>) {
    && b.leases.Keys == s.leases.Keys
    && forall id :: id in s.leases ==> b.leases[id] == if id in done then Settled(s, s.leases[id]) else s.leases[id]
  }

  /** user received exactly what the leases in done owe it. */
  ghost predicate PaidExactly(s: State, bank: Ledger, done: set<string>, user: string, d: string) {
    Balance(bank, User(user), d) == Balance(s.bank, User(user), d) + SumMap(OwedBy(s, done, user, d))
  }

  ghost predicate Good(s: State, b: Book) {
    BookOk(b, s.slots, s.leaseSeq, s.log.gifts)
  }

  lemma SettleOneOk(s: State, b: Book, id: string)
    requires SlotsOk(s.slots, s.websites, s.slotSeq) && Good(s, b) && id in b.leases
    ensures SettleOne(s, b, id).Ok?
    ensures Good(s, SettleOne(s, b, id).value)
    ensures SettleOne(s, b, id).value.leases == b.leases[id := Settled(s, b.leases[id])]
    ensures SameElsewhere(b.bank, SettleOne(s, b, id).value.bank, REGISTRY)
  {
    var l := b.leases[id];
    if Due(l, s.now) {
      var closed := Settled(s, l);
      assert Closes(l, closed);
      CloseKeeps(b, id, Recipient(s, l), closed, s.slots, s.leaseSeq, s.log.gifts);
    }
  }

  lemma SettleOneMarks(s: State, b: Book, id: string, done: set<string>, c: Book)
    requires SettledExactly(s, b, done) && id in s.leases && id !in done
    requires c.leases == b.leases[id := Settled(s, b.leases[id])]
    ensures SettledExactly(s, c, done + {id})
  {
  }

  lemma SettleOnePays(s: State, b: Book, id: string, user: string, d: string)
    requires id in b.leases && SettleOne(s, b, id).Ok?
    requires b.leases[id].remaining <= Balance(b.bank, REGISTRY, b.leases[id].denom)
    ensures Balance(SettleOne(s, b, id).value.bank, User(user), d) == Balance(b.bank, User(user), d)
            + (if Owes(s, b.leases[id], user, d) then b.leases[id].remaining else 0)
  {
  }

  lemma OwedGrows(s: State, id: string, done: set<string>, user: string, d: string)
    requires id in s.leases && id !in done
    ensures SumMap(OwedBy(s, done + {id}, user, d))
         == SumMap(OwedBy(s, done, user, d)) + (if Owes(s, s.leases[id], user, d) then s.leases[id].remaining else 0)
  {
    var before, after := OwedBy(s, done, user, d), OwedBy(s, done + {id}, user, d);
    if Owes(s, s.leases[id], user, d) {
      assert after == before[id := s.leases[id].remaining];
      SumMapUpdate(before, id, s.leases[id].remaining);
    } else {
      assert after == before;
    }
  }

  /** After the first n visits: the book is in order and exactly those leases are settled and paid. */
  ghost predicate SettledUpTo(s: State, ids: seq<string>, user: string, d: string, b: Book, n: nat) {
    && n <= |ids|
    && Good(s, b)
    && SettledExactly(s, b, Elems(ids[..n]))
    && SameElsewhere(s.bank, b.bank, REGISTRY)
    && PaidExactly(s, b.bank, Elems(ids[..n]), user, d)
  }

  lemma SettleStepKeeps(s: State, ids: seq<string>, user: string, d: string, b: Book, n: nat)
    requires SlotsOk(s.slots, s.websites, s.slotSeq) && SettledUpTo(s, ids, user, d, b, n) && n < |ids|
    requires NoDup(ids) && ids[n] in s.leases
    ensures SettleOne(s, b, ids[n]).Ok? && SettledUpTo(s, ids, user, d, SettleOne(s, b, ids[n]).value, n + 1)
  {
    PrefixElems(ids, n + 1);
    SettleOneOk(s, b, ids[n]);
    SettleOneMarks(s, b, ids[n], Elems(ids[..n]), SettleOne(s, b, ids[n]).value);
    EscrowCovers(b.bank, b.leases, s.log.gifts, ids[n]);
    SettleOnePays(s, b, ids[n], user, d);
    OwedGrows(s, ids[n], Elems(ids[..n]), user, d);
  }

  lemma NothingOwed(s: State, done: set<string>, user: string, d: string)
    requires done == {}
    ensures PaidExactly(s, s.bank, done, user, d)
  {
    assert OwedBy(s, done, user, d) == map[];
  }

  /**
   * Settlement never fails. Exactly the due leases are closed, each user receives exactly what they owe it,
   * no other module account moves, and every market invariant survives.
   */
  lemma SettleLeasesExact(s: State, user: string, d: string) returns (b: Book)
    requires MarketInv(s)
    ensures SettleLeases(s) == Ok(WithBook(s, b))
    ensures MarketInv(WithBook(s, b))
    ensures SettledExactly(s, b, s.leases.Keys)
    ensures SameElsewhere(s.bank, b.bank, REGISTRY)
    ensures PaidExactly(s, b.bank, s.leases.Keys, user, d)
  {
    var ids := SortedStrings(s.leases.Keys);
    EnumerationElems(ids, s.leases.Keys);
    b := SettleListed(s, ids, user, d);
  }

  lemma SettleListed(s: State, ids: seq<string>, user: string, d: string) returns (b: Book)
    requires MarketInv(s) && NoDup(ids) && forall i :: 0 <= i < |ids| ==> ids[i] in s.leases
    ensures Fold(SettleStep(s), BookOf(s), ids, |ids|) == Ok(b)
    ensures SettledUpTo(s, ids, user, d, b, |ids|)
  {
    var inv := (b: Book, n: nat) => SettledUpTo(s, ids, user, d, b, n);
    NothingOwed(s, Elems(ids[..0]), user, d);
    forall b, n: nat | n < |ids| && inv(b, n)
      ensures SettleStep(s)(b, ids[n]).Ok? && inv(SettleStep(s)(b, ids[n]).value, n + 1)
    {
      SettleStepKeeps(s, ids, user, d, b, n);
    }
    FoldCarries(SettleStep(s), BookOf(s), ids, |ids|, inv);
    b := Fold(SettleStep(s), BookOf(s), ids, |ids|).value;
  }

  // Violation of the leases that are on air for a domain.

  predicate Airing(l: Lease, slots: map<string, Slot>, domain: string, now: int) {
    && l.status == Active && l.starts <= now <= l.ends
    && l.slotId in slots && slots[l.slotId].domain == domain
  }

  /** activeLeasesForDomain. */
  function OnAir(leases: map<string, Lease>, slots: map<string, Slot>, domain: string, now: int): set<string> {
    set id | id in leases && Airing(leases[id], slots, domain, now)
  }

  function RefundStep(now: int): (Book, string) -> Result<Book, Error> {
    (b: Book, id) => if id in b.leases then Refund(b, id, now) else Ok(b)
  }

  /** violateActiveLeasesForDomain. */
  function ViolateLeases(b: Book, slots: map<string, Slot>, domain: string, now: int): Result<Book, Error> {
    var ids := SortedStrings(OnAir(b.leases, slots, domain, now));
    Fold(RefundStep(now), b, ids, |ids|)
  }

  /** after is before with exactly the leases in done refunded. */
  ghost predicate RefundedExactly(before: map<string, Lease>, after: map<string, Lease>, done: set<string>, now: int) {
    && after.Keys == before.Keys
    && forall id :: id in before ==> after[id] == if id in done then Refunded(before[id], now) else before[id]
  }

  lemma RefundOneOk(b: Book, c: Book, id: string, done: set<string>, now: int,
                    slots: map<string, Slot>, leaseSeq: nat, gifts: Ledger) returns (r: Book)
    requires BookOk(c, slots, leaseSeq, gifts) && RefundedExactly(b.leases, c.leases, done, now)
    requires id in b.leases && id !in done && b.leases[id].status == Active
    ensures Refund(c, id, now).Ok? && r == Refund(c, id, now).value
    ensures BookOk(r, slots, leaseSeq, gifts) && RefundedExactly(b.leases, r.leases, done + {id}, now)
    ensures SameElsewhere(c.bank, r.bank, REGISTRY)
  {
    assert c.leases[id] == b.leases[id];
    var closed := Refunded(c.leases[id], now);
    assert LeaseShape(c.leases[id]);
    CloseKeeps(c, id, c.leases[id].lessee, closed, slots, leaseSeq, gifts);
    r := Refund(c, id, now).value;
  }

  ghost predicate RefundedUpTo(b: Book, ids: seq<string>, now: int, slots: map<string, Slot>, leaseSeq: nat, gifts: Ledger,
                               c: Book, n: nat) {
    && n <= |ids|
    && BookOk(c, slots, leaseSeq, gifts)
    && RefundedExactly(b.leases, c.leases, Elems(ids[..n]), now)
    && SameElsewhere(b.bank, c.bank, REGISTRY)
  }

  lemma RefundStepKeeps(b: Book, ids: seq<string>, now: int, slots: map<string, Slot>, leaseSeq: nat, gifts: Ledger,
                        c: Book, n: nat)
    requires RefundedUpTo(b, ids, now, slots, leaseSeq, gifts, c, n) && n < |ids| && NoDup(ids)
    requires ids[n] in b.leases && b.leases[ids[n]].status == Active
    ensures RefundStep(now)(c, ids[n]).Ok?
    ensures RefundedUpTo(b, ids, now, slots, leaseSeq, gifts, RefundStep(now)(c, ids[n]).value, n + 1)
  {
    PrefixElems(ids, n + 1);
    var r := RefundOneOk(b, c, ids[n], Elems(ids[..n]), now, slots, leaseSeq, gifts);
  }

  lemma RefundAll(b: Book, ids: seq<string>, now: int, slots: map<string, Slot>, leaseSeq: nat, gifts: Ledger) returns (c: Book)
    requires BookOk(b, slots, leaseSeq, gifts) && NoDup(ids)
    requires forall i :: 0 <= i < |ids| ==> ids[i] in b.leases && b.leases[ids[i]].status == Active
    ensures Fold(RefundStep(now), b, ids, |ids|) == Ok(c)
    ensures RefundedUpTo(b, ids, now, slots, leaseSeq, gifts, c, |ids|)
  {
    var inv := (c: Book, n: nat) => RefundedUpTo(b, ids, now, slots, leaseSeq, gifts, c, n);
    forall c, n: nat | n < |ids| && inv(c, n)
      ensures RefundStep(now)(c, ids[n]).Ok? && inv(RefundStep(now)(c, ids[n]).value, n + 1)
    {
      RefundStepKeeps(b, ids, now, slots, leaseSeq, gifts, c, n);
    }
    FoldCarries(RefundStep(now), b, ids, |ids|, inv);
    c := Fold(RefundStep(now), b, ids, |ids|).value;
  }

  /** Violation never fails and refunds exactly the leases on air for the domain. */
  lemma ViolateLeasesExact(b: Book, slots: map<string, Slot>, domain: string, now: int, leaseSeq: nat, gifts: Ledger) returns (c: Book)
    requires BookOk(b, slots, leaseSeq, gifts)
    ensures ViolateLeases(b, slots, domain, now) == Ok(c)
    ensures BookOk(c, slots, leaseSeq, gifts)
    ensures RefundedExactly(b.leases, c.leases, OnAir(b.leases, slots, domain, now), now)
    ensures SameElsewhere(b.bank, c.bank, REGISTRY)
  {
    var ids := SortedStrings(OnAir(b.leases, slots, domain, now));
    EnumerationElems(ids, OnAir(b.leases, slots, domain, now));
    c := RefundAll(b, ids, now, slots, leaseSeq, gifts);
  }

  // Where the money of violated leases goes.

  /** What the leases in done hold in denomination d for their lessee user. */
  ghost function HeldFor(leases: map<string, Lease>, done: set<string>, user: string, d: string): map<string, int> {
    map id | id in leases && id in done && leases[id].lessee == user && leases[id].denom == d :: leases[id].remaining
  }

  lemma HeldGrows(leases: map<string, Lease>, id: string, done: set<string>, more: set<string>, user: string, d: string)
    requires id in leases && id !in done && more == done + {id}
    ensures SumMap(HeldFor(leases, more, user, d))
         == SumMap(HeldFor(leases, done, user, d)) + (if leases[id].lessee == user && leases[id].denom == d then leases[id].remaining else 0)
  {
    var before, after := HeldFor(leases, done, user, d), HeldFor(leases, more, user, d);
    if leases[id].lessee == user && leases[id].denom == d {
      assert after == before[id := leases[id].remaining];
      SumMapUpdate(before, id, leases[id].remaining);
    } else {
      assert after == before;
    }
  }

  lemma RefundPays(b: Book, id: string, now: int, user: string, d: string)
    requires id in b.leases && RefundStep(now)(b, id).Ok?
    requires b.leases[id].remaining <= Balance(b.bank, REGISTRY, b.leases[id].denom)
    ensures Balance(RefundStep(now)(b, id).value.bank, User(user), d) == Balance(b.bank, User(user), d)
            + (if b.leases[id].lessee == user && b.leases[id].denom == d then b.leases[id].remaining else 0)
  {
  }

  /** The first n leases are refunded and user holds what they held for it. */
  ghost predicate PaidBackUpTo(b: Book, ids: seq<string>, now: int, slots: map<string, Slot>, leaseSeq: nat, gifts: Ledger,
                               user: string, d: string, c: Book, n: nat) {
    && RefundedUpTo(b, ids, now, slots, leaseSeq, gifts, c, n)
    && Balance(c.bank, User(user), d) == Balance(b.bank, User(user), d) + SumMap(HeldFor(b.leases, Elems(ids[..n]), user, d))
  }

  lemma PaidBackStep(b: Book, ids: seq<string>, now: int, slots: map<string, Slot>, leaseSeq: nat, gifts: Ledger,
                     user: string, d: string, c: Book, n: nat)
    requires PaidBackUpTo(b, ids, now, slots, leaseSeq, gifts, user, d, c, n) && n < |ids| && NoDup(ids)
    requires ids[n] in b.leases && b.leases[ids[n]].status == Active
    ensures RefundStep(now)(c, ids[n]).Ok?
    ensures PaidBackUpTo(b, ids, now, slots, leaseSeq, gifts, user, d, RefundStep(now)(c, ids[n]).value, n + 1)
  {
    PrefixElems(ids, n + 1);
    RefundStepKeeps(b, ids, now, slots, leaseSeq, gifts, c, n);
    EscrowCovers(c.bank, c.leases, gifts, ids[n]);
    RefundPays(c, ids[n], now, user, d);
    HeldGrows(b.leases, ids[n], Elems(ids[..n]), Elems(ids[..n + 1]), user, d);
  }

  lemma PaidBackStart(b: Book, ids: seq<string>, now: int, slots: map<string, Slot>, leaseSeq: nat, gifts: Ledger, user: string, d: string)
    requires BookOk(b, slots, leaseSeq, gifts)
    ensures PaidBackUpTo(b, ids, now, slots, leaseSeq, gifts, user, d, b, 0)
  {
    assert HeldFor(b.leases, Elems(ids[..0]), user, d) == map[];
  }

  lemma PaidBackAll(b: Book, ids: seq<string>, now: int, slots: map<string, Slot>, leaseSeq: nat, gifts: Ledger, user: string, d: string)
    requires BookOk(b, slots, leaseSeq, gifts) && NoDup(ids)
    requires forall i :: 0 <= i < |ids| ==> ids[i] in b.leases && b.leases[ids[i]].status == Active
    ensures Fold(RefundStep(now), b, ids, |ids|).Ok?
    ensures PaidBackUpTo(b, ids, now, slots, leaseSeq, gifts, user, d, Fold(RefundStep(now), b, ids, |ids|).value, |ids|)
  {
    var inv := (c: Book, n: nat) => PaidBackUpTo(b, ids, now, slots, leaseSeq, gifts, user, d, c, n);
    PaidBackStart(b, ids, now, slots, leaseSeq, gifts, user, d);
    forall c, n: nat | n < |ids| && inv(c, n)
      ensures RefundStep(now)(c, ids[n]).Ok? && inv(RefundStep(now)(c, ids[n]).value, n + 1)
    {
      PaidBackStep(b, ids, now, slots, leaseSeq, gifts, user, d, c, n);
    }
    FoldCarries(RefundStep(now), b, ids, |ids|, inv);
  }

  /** The active leases of domain that are running at time now, and what they hold for user. */
  ghost function RunningFor(leases: map<string, Lease>, slots: map<string, Slot>, domain: string, now: int, user: string, d: string)
    : map<string, int>
  {
    map id | id in leases && leases[id].status == Active && leases[id].starts <= now <= leases[id].ends
             && leases[id].slotId in slots && slots[leases[id].slotId].domain == domain
             && leases[id].lessee == user && leases[id].denom == d :: leases[id].remaining
  }

  lemma HeldIsRunning(leases: map<string, Lease>, slots: map<string, Slot>, domain: string, now: int, user: string, d: string)
    ensures HeldFor(leases, OnAir(leases, slots, domain, now), user, d) == RunningFor(leases, slots, domain, now, user, d)
  {
  }

  lemma OnAirListed(b: Book, slots: map<string, Slot>, domain: string, now: int, ids: seq<string>)
    requires ids == SortedStrings(OnAir(b.leases, slots, domain, now))
    ensures NoDup(ids) && Elems(ids[..|ids|]) == OnAir(b.leases, slots, domain, now)
    ensures forall i :: 0 <= i < |ids| ==> ids[i] in b.leases && b.leases[ids[i]].status == Active
  {
    EnumerationElems(ids, OnAir(b.leases, slots, domain, now));
  }

  /** Every user gets back exactly the escrow of its own leases that are running on the domain, and nobody else anything. */
  lemma ViolatePaysLessees(b: Book, slots: map<string, Slot>, domain: string, now: int, leaseSeq: nat, gifts: Ledger, user: string, d: string)
    requires BookOk(b, slots, leaseSeq, gifts)
    ensures ViolateLeases(b, slots, domain, now).Ok?
    ensures Balance(ViolateLeases(b, slots, domain, now).value.bank, User(user), d)
         == Balance(b.bank, User(user), d) + SumMap(RunningFor(b.leases, slots, domain, now, user, d))
  {
    var ids := SortedStrings(OnAir(b.leases, slots, domain, now));
    OnAirListed(b, slots, domain, now, ids);
    PaidBackAll(b, ids, now, slots, leaseSeq, gifts, user, d);
    HeldIsRunning(b.leases, slots, domain, now, user, d);
  }

  /** A running lease of the domain ends as violated with nothing left; every other lease stays as it is. */
  lemma ViolatedMeaning(b: Book, slots: map<string, Slot>, domain: string, now: int, leaseSeq: nat, gifts: Ledger, id: string)
    requires BookOk(b, slots, leaseSeq, gifts) && id in b.leases
    ensures ViolateLeases(b, slots, domain, now).Ok?
    ensures var l, after := b.leases[id], ViolateLeases(b, slots, domain, now).value.leases;
      && after.Keys == b.leases.Keys
      && after[id] == if l.status == Active && l.starts <= now <= l.ends && slots[l.slotId].domain == domain
                      then l.(remaining := 0, status := Violated, updatedAt := now, paidThrough := now) else l
  {
    var c := ViolateLeasesExact(b, slots, domain, now, leaseSeq, gifts);
    assert b.leases[id].slotId in slots;
  }

  /** The website of a lease is in cooldown. */
  predicate Cooling(s: State, l: Lease)
    requires SlotsOk(s.slots, s.websites, s.slotSeq) && l.slotId in s.slots
  {
    s.now < s.websites[s.slots[l.slotId].domain].cooldownUntil
  }

  /** What the leases that are over hold for user: for its lessee during a cooldown, for its publisher otherwise. */
  ghost function OverFor(s: State, user: string, d: string): map<string, int>
    requires MarketInv(s)
  {
    map id | id in s.leases && s.leases[id].status == Active && s.leases[id].ends <= s.now && s.leases[id].denom == d
             && user == (if Cooling(s, s.leases[id]) then s.leases[id].lessee else s.leases[id].publisher)
           :: s.leases[id].remaining
  }

  /**
   * The end of a block closes exactly the active leases that are over: during a cooldown of the website as violated,
   * with the escrow back to the lessee, otherwise as completed, with the escrow paid to the publisher.
   */
  lemma SettledMeaning(s: State, id: string, user: string, d: string)
    requires MarketInv(s)
    ensures SettleLeases(s).Ok? && SettleLeases(s).value.leases.Keys == s.leases.Keys
    ensures id in s.leases ==>
      var l := s.leases[id];
      SettleLeases(s).value.leases[id]
      == if l.status != Active || s.now < l.ends then l
         else if Cooling(s, l) then l.(remaining := 0, status := Violated, updatedAt := s.now, paidThrough := s.now)
         else l.(remaining := 0, paidOut := l.total, status := Completed, updatedAt := s.now, paidThrough := l.ends)
    ensures Balance(SettleLeases(s).value.bank, User(user), d) == Balance(s.bank, User(user), d) + SumMap(OverFor(s, user, d))
  {
    var b := SettleLeasesExact(s, user, d);
    OwedIsOver(s, user, d);
    if id in s.leases { SettledLease(s, id); }
  }

  lemma OwedIsOver(s: State, user: string, d: string)
    requires MarketInv(s)
    ensures OwedBy(s, s.leases.Keys, user, d) == OverFor(s, user, d)
  {
    forall id | id in s.leases
      ensures id in OwedBy(s, s.leases.Keys, user, d) <==> id in OverFor(s, user, d)
    {
      assert s.leases[id].slotId in s.slots && s.slots[s.leases[id].slotId].domain in s.websites;
    }
  }

  lemma SettledLease(s: State, id: string)
    requires MarketInv(s) && id in s.leases
    ensures var l := s.leases[id];
      Settled(s, l)
      == if l.status != Active || s.now < l.ends then l
         else if Cooling(s, l) then l.(remaining := 0, status := Violated, updatedAt := s.now, paidThrough := s.now)
         else l.(remaining := 0, paidOut := l.total, status := Completed, updatedAt := s.now, paidThrough := l.ends)
  {
    assert LeaseShape(s.leases[id]) && s.leases[id].slotId in s.slots && s.slots[s.leases[id].slotId].domain in s.websites;
  }
}
