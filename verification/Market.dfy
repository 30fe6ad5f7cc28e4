// Slots, leases and the escrow ledger (x/registry/msg_server.go, lease_settlement.go, slot_keeper.go).
module Market {
  import opened Base
  import opened Orders
  import opened Sums
  import opened Arith
  import opened Bank
  import opened ChainState
  import opened Domains

  type Int64 = x: int | -MAX_INT64 - 1 <= x <= MAX_INT64

  datatype SlotMsg = SlotMsg(
    publisher: string, domain: string, title: string, denom: string, rate: Option<int>, unit: Int64, minDuration: Int64, maxDuration: Int64)
  datatype StatusMsg = StatusMsg(publisher: string, slotId: string, status: int)
  datatype LeaseMsg = LeaseMsg(lessee: string, slotId: string, url: string, starts: Int64, duration: Int64)

  // Steps.

  function CreateSlot(s: State, m: SlotMsg): Result<State, Error> {
    if m.domain !in s.websites then Err(NotFound)
    else
      var w := s.websites[m.domain];
      if w.owner != m.publisher then Err(Unauthorized)
      else if w.status != Verified then Err(PublisherNotVerified)
      else if w.cooldownUntil > s.now then Err(InCooldown)
      else if m.rate == None || m.rate.value < 0 || m.title == "" || m.denom == "" || m.unit <= 0
              || m.minDuration <= 0 || m.maxDuration <= 0 || m.minDuration > m.maxDuration then Err(Invalid)
      else
        var slot := Slot(m.publisher, m.domain, m.denom, m.rate.value, m.unit, m.minDuration, m.maxDuration, SLOT_PAUSED);
        Ok(s.(slotSeq := s.slotSeq + 1, slots := s.slots[SlotId(s.slotSeq + 1) := slot]))
  }

  function UpdateSlotStatus(s: State, m: StatusMsg): Result<State, Error> {
    if m.slotId !in s.slots then Err(NotFound)
    else if s.slots[m.slotId].publisher != m.publisher then Err(Unauthorized)
    else if m.status == SLOT_UNSPECIFIED then Err(Invalid)
    else Ok(s.(slots := s.slots[m.slotId := s.slots[m.slotId].(status := m.status)]))
  }

  /** No active lease of the slot intersects [starts, ends). */
  predicate NoOverlap(leases: map<string, Lease>, slotId: string, starts: int, ends: int) {
    forall id :: id in leases && leases[id].slotId == slotId && leases[id].status == Active ==>
      !(starts < leases[id].ends && ends > leases[id].starts)
  }

  function StartTime(s: State, m: LeaseMsg): int {
    if m.starts <= 0 then s.now else m.starts
  }

  /** The end time is an int64 sum. */
  function EndTime(s: State, m: LeaseMsg): int {
    Wrap64(StartTime(s, m) + m.duration)
  }

  /** Every guard of LeaseSlot before payment. */
  function LeaseRefusal(s: State, env: Env, m: LeaseMsg): Option<Error> {
    if m.slotId !in s.slots then Some(NotFound)
    else
      var slot := s.slots[m.slotId];
      if slot.status != SLOT_LISTED then Some(Invalid)
      else if slot.domain !in s.websites then Some(NotFound)
      else
        var w := s.websites[slot.domain];
        var starts := StartTime(s, m);
        if w.status != Verified then Some(PublisherNotVerified)
        else if starts < s.now then Some(Invalid)
        else if w.cooldownUntil > s.now && starts < w.cooldownUntil then Some(InCooldown)
        else if m.duration <= 0 || slot.unit <= 0 || m.duration % slot.unit != 0 then Some(Invalid)
        else if m.duration < slot.minDuration || m.duration > slot.maxDuration then Some(Invalid)
        else if EndTime(s, m) <= starts then Some(Invalid)
        else if !env.validUrl(m.url) then Some(Invalid)
        else if !NoOverlap(s.leases, m.slotId, starts, EndTime(s, m)) then Some(Overlap)
        else if !IsAddress(m.lessee) || starts <= 0 then Some(Invalid)
        else None
  }

  function LeasePrice(slot: Slot, duration: int): nat
    requires slot.unit > 0 && duration >= 0
  {
    FloorMono(0, duration, slot.unit);
    MulMono(0, slot.rate, duration / slot.unit);
    slot.rate * (duration / slot.unit)
  }

  function LeaseSlot(s: State, env: Env, m: LeaseMsg): Result<State, Error> {
    if LeaseRefusal(s, env, m).Some? then Err(LeaseRefusal(s, env, m).value)
    else
      var slot := s.slots[m.slotId];
      var total := LeasePrice(slot, m.duration);
      if total > Balance(s.bank, User(m.lessee), slot.denom) then Err(InsufficientFunds)
      else
        var bank := if total > 0 then Send(s.bank, User(m.lessee), REGISTRY, slot.denom, total).value else s.bank;
        var lease := Lease(m.slotId, slot.publisher, m.lessee, StartTime(s, m), EndTime(s, m), slot.denom,
                           total, total, 0, Active, s.now, 0);
        Ok(s.(bank := bank, leaseSeq := s.leaseSeq + 1, leases := s.leases[LeaseId(s.leaseSeq + 1) := lease]))
  }

  /** The two things settlement touches: the bank and the lease records. */
  datatype Book = Book(bank: Ledger, leases: map<string, Lease>)

  function BookOf(s: State): Book {
    Book(s.bank, s.leases)
  }

  function WithBook(s: State, b: Book): State {
    s.(bank := b.bank, leases := b.leases)
  }

  function Release(bank: Ledger, l: Lease, to: string): Option<Ledger> {
    if l.remaining == 0 then Some(bank) else Send(bank, REGISTRY, User(to), l.denom, l.remaining)
  }

  /** Release what is left in escrow to a user and store the closed lease. */
  function Close(b: Book, id: string, to: string, closed: Lease): Result<Book, Error>
    requires id in b.leases
  {
    match Release(b.bank, b.leases[id], to)
    case None => Err(InsufficientFunds)
    case Some(bank) => Ok(Book(bank, b.leases[id := closed]))
  }

  function PaidOut(l: Lease, now: int): Lease {
    l.(paidOut := l.paidOut + l.remaining, remaining := 0, status := Completed, updatedAt := now, paidThrough := l.ends)
  }

  function Refunded(l: Lease, now: int): Lease {
    l.(remaining := 0, status := Violated, updatedAt := now, paidThrough := now)
  }

  function Payout(b: Book, id: string, now: int): Result<Book, Error>
    requires id in b.leases
  {
    Close(b, id, b.leases[id].publisher, PaidOut(b.leases[id], now))
  }

  function Refund(b: Book, id: string, now: int): Result<Book, Error>
    requires id in b.leases
  {
    Close(b, id, b.leases[id].lessee, Refunded(b.leases[id], now))
  }

  // Invariants.

  ghost function EscrowOf(leases: map<string, Lease>, d: string): map<string, int> {
    map id | id in leases && leases[id].denom == d :: leases[id].remaining
  }

  /** Per denomination, the registry account holds exactly the open escrow plus outside deposits. */
  ghost predicate EscrowOk(bank: Ledger, leases: map<string, Lease>, gifts: Ledger) {
    forall d :: Balance(bank, REGISTRY, d) == SumMap(EscrowOf(leases, d)) + Balance(gifts, REGISTRY, d)
  }

  predicate LeaseShape(l: Lease) {
    && l.starts < l.ends
    && match l.status
       case Active => l.remaining == l.total && l.paidOut == 0
       case Completed => l.remaining == 0 && l.paidOut == l.total
       case Violated => l.remaining == 0 && l.paidOut == 0
  }

  ghost predicate SlotNumbered(id: string, seqNo: nat) {
    exists n: nat :: 1 <= n <= seqNo && id == SlotId(n)
  }

  ghost predicate LeaseNumbered(id: string, seqNo: nat) {
    exists n: nat :: 1 <= n <= seqNo && id == LeaseId(n)
  }

  ghost predicate LeasesOk(leases: map<string, Lease>, slots: map<string, Slot>, leaseSeq: nat) {
    forall id :: id in leases ==> LeaseShape(leases[id]) && leases[id].slotId in slots && LeaseNumbered(id, leaseSeq)
  }

  /** Every slot belongs to the owner of its website. */
  ghost predicate SlotsOk(slots: map<string, Slot>, websites: map<string, Website>, slotSeq: nat) {
    forall id :: id in slots ==>
      && slots[id].domain in websites
      && slots[id].publisher == websites[slots[id].domain].owner
      && SlotNumbered(id, slotSeq)
  }

  predicate Apart(a: Lease, b: Lease) {
    a.ends <= b.starts || b.ends <= a.starts
  }

  /** Active leases of one slot occupy disjoint half-open intervals. */
  ghost predicate Disjoint(leases: map<string, Lease>) {
    forall i, j ::
      (i in leases && j in leases && i != j && leases[i].slotId == leases[j].slotId
       && leases[i].status == Active && leases[j].status == Active)
      ==> Apart(leases[i], leases[j])
  }

  ghost predicate BookOk(b: Book, slots: map<string, Slot>, leaseSeq: nat, gifts: Ledger) {
    && LeasesOk(b.leases, slots, leaseSeq)
    && Disjoint(b.leases)
    && EscrowOk(b.bank, b.leases, gifts)
  }

  ghost predicate MarketInv(s: State) {
    && SlotsOk(s.slots, s.websites, s.slotSeq)
    && BookOk(BookOf(s), s.slots, s.leaseSeq, s.log.gifts)
  }

  // Escrow arithmetic.

  /** Writing one lease moves the escrow sum of its denomination only. */
  lemma EscrowWrite(leases: map<string, Lease>, id: string, l: Lease, d: string)
    requires id in leases ==> leases[id].denom == l.denom
    ensures SumMap(EscrowOf(leases[id := l], d))
         == SumMap(EscrowOf(leases, d))
            + (if l.denom == d then l.remaining - (if id in leases then leases[id].remaining else 0) else 0)
  {
    var before, after := EscrowOf(leases, d), EscrowOf(leases[id := l], d);
    if l.denom == d {
      SumMapUpdate(before, id, l.remaining);
      assert after == before[id := l.remaining];
    } else {
      assert after == before;
    }
  }

  lemma EscrowCovers(bank: Ledger, leases: map<string, Lease>, gifts: Ledger, id: string)
    requires EscrowOk(bank, leases, gifts) && id in leases
    ensures leases[id].remaining <= Balance(bank, REGISTRY, leases[id].denom)
  {
    var d := leases[id].denom;
    SumMapAtLeast(EscrowOf(leases, d), id);
    assert Balance(bank, REGISTRY, d) == SumMap(EscrowOf(leases, d)) + Balance(gifts, REGISTRY, d);
  }

  /** Releasing one lease's escrow and zeroing its remainder keeps the ledger equation. */
  lemma ReleaseKeeps(bank: Ledger, leases: map<string, Lease>, gifts: Ledger, id: string, to: string, closed: Lease)
    requires EscrowOk(bank, leases, gifts) && id in leases
    requires closed.remaining == 0 && closed.denom == leases[id].denom
    ensures Release(bank, leases[id], to).Some?
    ensures EscrowOk(Release(bank, leases[id], to).value, leases[id := closed], gifts)
    ensures SameElsewhere(bank, Release(bank, leases[id], to).value, REGISTRY)
  {
    EscrowCovers(bank, leases, gifts, id);
    var after := Release(bank, leases[id], to).value;
    forall d
      ensures Balance(after, REGISTRY, d) == SumMap(EscrowOf(leases[id := closed], d)) + Balance(gifts, REGISTRY, d)
    {
      EscrowWrite(leases, id, closed, d);
      assert Balance(bank, REGISTRY, d) == SumMap(EscrowOf(leases, d)) + Balance(gifts, REGISTRY, d);
    }
  }

  /** A closed form of an active lease: nothing left, same slot, denomination and interval. */
  predicate Closes(l: Lease, closed: Lease) {
    && closed.remaining == 0 && closed.status != Active
    && closed.slotId == l.slotId && closed.denom == l.denom && closed.starts == l.starts && closed.ends == l.ends
    && LeaseShape(closed)
  }

  /** Closing a lease always succeeds, moves exactly its escrow, and keeps the book in order. */
  lemma CloseKeeps(b: Book, id: string, to: string, closed: Lease, slots: map<string, Slot>, leaseSeq: nat, gifts: Ledger)
    requires BookOk(b, slots, leaseSeq, gifts) && id in b.leases && Closes(b.leases[id], closed)
    ensures Close(b, id, to, closed).Ok?
    ensures Close(b, id, to, closed).value.leases == b.leases[id := closed]
    ensures SameElsewhere(b.bank, Close(b, id, to, closed).value.bank, REGISTRY)
    ensures BookOk(Close(b, id, to, closed).value, slots, leaseSeq, gifts)
  {
    ReleaseKeeps(b.bank, b.leases, gifts, id, to, closed);
    CloseShape(b.leases, id, closed, slots, leaseSeq);
  }

  lemma CloseShape(leases: map<string, Lease>, id: string, closed: Lease, slots: map<string, Slot>, leaseSeq: nat)
    requires id in leases && Closes(leases[id], closed)
    requires LeasesOk(leases, slots, leaseSeq) && Disjoint(leases)
    ensures LeasesOk(leases[id := closed], slots, leaseSeq) && Disjoint(leases[id := closed])
  {
  }

  // Market messages keep the invariants.

  lemma CreateSlotKeeps(s: State, m: SlotMsg)
    requires MarketInv(s) && CreateSlot(s, m).Ok?
    ensures MarketInv(CreateSlot(s, m).value)
    ensures SlotId(s.slotSeq + 1) !in s.slots
  {
    SlotIdFresh(s.slots, s.websites, s.slotSeq);
    NewSlotShape(s.slots, s.websites, s.slotSeq, CreateSlot(s, m).value.slots[SlotId(s.slotSeq + 1)]);
  }

  lemma NewSlotShape(slots: map<string, Slot>, websites: map<string, Website>, slotSeq: nat, slot: Slot)
    requires SlotsOk(slots, websites, slotSeq) && slot.domain in websites && slot.publisher == websites[slot.domain].owner
    ensures SlotsOk(slots[SlotId(slotSeq + 1) := slot], websites, slotSeq + 1)
  {
    var after := slots[SlotId(slotSeq + 1) := slot];
    forall id | id in after
      ensures SlotNumbered(id, slotSeq + 1)
    {
      if id == SlotId(slotSeq + 1) {
        assert 1 <= slotSeq + 1 <= slotSeq + 1 && id == SlotId(slotSeq + 1);
      } else {
        var n: nat :| 1 <= n <= slotSeq && id == SlotId(n);
        assert 1 <= n <= slotSeq + 1 && id == SlotId(n);
      }
    }
  }

  lemma SlotIdFresh(slots: map<string, Slot>, websites: map<string, Website>, slotSeq: nat)
    requires SlotsOk(slots, websites, slotSeq)
    ensures SlotId(slotSeq + 1) !in slots
  {
    if SlotId(slotSeq + 1) in slots {
      var n: nat :| 1 <= n <= slotSeq && SlotId(slotSeq + 1) == SlotId(n);
      IdsInjective(slotSeq + 1, n);
    }
  }

  lemma LeaseIdFresh(leases: map<string, Lease>, slots: map<string, Slot>, leaseSeq: nat)
    requires LeasesOk(leases, slots, leaseSeq)
    ensures LeaseId(leaseSeq + 1) !in leases
  {
    if LeaseId(leaseSeq + 1) in leases {
      var n: nat :| 1 <= n <= leaseSeq && LeaseId(leaseSeq + 1) == LeaseId(n);
      IdsInjective(leaseSeq + 1, n);
    }
  }

  lemma UpdateSlotStatusKeeps(s: State, m: StatusMsg)
    requires MarketInv(s) && UpdateSlotStatus(s, m).Ok?
    ensures MarketInv(UpdateSlotStatus(s, m).value)
  {
  }

  /** Paying the price of a new lease into escrow keeps the ledger equation. */
  lemma DepositKeeps(bank: Ledger, leases: map<string, Lease>, gifts: Ledger, id: string, l: Lease, after: Ledger)
    requires EscrowOk(bank, leases, gifts) && id !in leases
    requires l.remaining <= Balance(bank, User(l.lessee), l.denom)
    requires after == if l.remaining > 0 then Send(bank, User(l.lessee), REGISTRY, l.denom, l.remaining).value else bank
    ensures EscrowOk(after, leases[id := l], gifts) && SameElsewhere(bank, after, REGISTRY)
  {
    forall d
      ensures Balance(after, REGISTRY, d) == SumMap(EscrowOf(leases[id := l], d)) + Balance(gifts, REGISTRY, d)
    {
      EscrowWrite(leases, id, l, d);
      assert Balance(bank, REGISTRY, d) == SumMap(EscrowOf(leases, d)) + Balance(gifts, REGISTRY, d);
    }
  }

  lemma NewLeaseShape(leases: map<string, Lease>, slots: map<string, Slot>, leaseSeq: nat, l: Lease)
    requires LeasesOk(leases, slots, leaseSeq) && Disjoint(leases) && LeaseId(leaseSeq + 1) !in leases
    requires LeaseShape(l) && l.slotId in slots && NoOverlap(leases, l.slotId, l.starts, l.ends)
    ensures LeasesOk(leases[LeaseId(leaseSeq + 1) := l], slots, leaseSeq + 1)
    ensures Disjoint(leases[LeaseId(leaseSeq + 1) := l])
  {
    var after := leases[LeaseId(leaseSeq + 1) := l];
    forall id | id in after
      ensures LeaseNumbered(id, leaseSeq + 1)
    {
      if id in leases {
        var n: nat :| 1 <= n <= leaseSeq && id == LeaseId(n);
        assert 1 <= n <= leaseSeq + 1 && id == LeaseId(n);
      } else {
        assert 1 <= leaseSeq + 1 <= leaseSeq + 1 && id == LeaseId(leaseSeq + 1);
      }
    }
  }

  /** A lease is granted under a fresh id, fully escrowed, and apart from every active lease of its slot. */
  lemma LeaseSlotKeeps(s: State, env: Env, m: LeaseMsg)
    requires MarketInv(s) && LeaseSlot(s, env, m).Ok?
    ensures MarketInv(LeaseSlot(s, env, m).value)
    ensures LeaseId(s.leaseSeq + 1) !in s.leases
    ensures SameElsewhere(s.bank, LeaseSlot(s, env, m).value.bank, REGISTRY)
  {
    LeaseIdFresh(s.leases, s.slots, s.leaseSeq);
    var t := LeaseSlot(s, env, m).value;
    var l := t.leases[LeaseId(s.leaseSeq + 1)];
    DepositKeeps(s.bank, s.leases, s.log.gifts, LeaseId(s.leaseSeq + 1), l, t.bank);
    NewLeaseShape(s.leases, s.slots, s.leaseSeq, l);
  }

  /** An accepted end time is the exact sum: int64 overflow is always rejected. */
  lemma EndTimeExact(s: State, env: Env, m: LeaseMsg)
    requires 0 <= s.now <= MAX_INT64 && LeaseRefusal(s, env, m) == None
    ensures EndTime(s, m) == StartTime(s, m) + m.duration
  {
  }

  // What the messages grant.

  /**
   * A slot is created if and only if its domain is a verified website of the publisher, out of cooldown, and the terms are
   * well formed. It carries exactly those terms, starts paused under a fresh id, and no other slot changes.
   */
  lemma SlotGranted(s: State, m: SlotMsg)
    requires MarketInv(s)
    ensures CreateSlot(s, m).Ok? <==>
      && m.domain in s.websites && s.websites[m.domain].owner == m.publisher
      && s.websites[m.domain].status == Verified && s.websites[m.domain].cooldownUntil <= s.now
      && m.rate.Some? && m.rate.value >= 0 && m.title != "" && m.denom != "" && m.unit > 0
      && 0 < m.minDuration <= m.maxDuration
    ensures CreateSlot(s, m).Ok? ==>
      var t, id := CreateSlot(s, m).value, SlotId(s.slotSeq + 1);
      && id !in s.slots && t.slots.Keys == s.slots.Keys + {id}
      && t.slots[id] == Slot(m.publisher, m.domain, m.denom, m.rate.value, m.unit, m.minDuration, m.maxDuration, SLOT_PAUSED)
      && forall other :: other in s.slots ==> t.slots[other] == s.slots[other]
  {
    SlotIdFresh(s.slots, s.websites, s.slotSeq);
  }

  /** Only its publisher sets the status of a slot, to anything but unspecified, and changes nothing else. */
  lemma StatusSet(s: State, m: StatusMsg)
    ensures UpdateSlotStatus(s, m).Ok? <==> m.slotId in s.slots && s.slots[m.slotId].publisher == m.publisher && m.status != 0
    ensures UpdateSlotStatus(s, m).Ok? ==>
      UpdateSlotStatus(s, m).value.slots == s.slots[m.slotId := s.slots[m.slotId].(status := m.status)]
  {
  }

  /** The start of a requested lease: now, unless the request names a time. */
  function RequestedStart(s: State, m: LeaseMsg): int {
    if m.starts > 0 then m.starts else s.now
  }

  /** The slot is listed, on a verified website, and its terms admit the requested duration. */
  predicate TermsMet(s: State, m: LeaseMsg) {
    && m.slotId in s.slots && s.slots[m.slotId].status == SLOT_LISTED
    && s.slots[m.slotId].domain in s.websites && s.websites[s.slots[m.slotId].domain].status == Verified
    && s.slots[m.slotId].unit > 0 && m.duration > 0 && m.duration % s.slots[m.slotId].unit == 0
    && s.slots[m.slotId].minDuration <= m.duration <= s.slots[m.slotId].maxDuration
  }

  /** The requested time begins now or later, after any cooldown, fits an int64, and meets no active lease of the slot. */
  ghost predicate TimeFree(s: State, m: LeaseMsg)
    requires TermsMet(s, m)
  {
    var start, until := RequestedStart(s, m), s.websites[s.slots[m.slotId].domain].cooldownUntil;
    && s.now <= start && 0 < start && (s.now < until ==> until <= start)
    && start + m.duration <= MAX_INT64
    && forall id :: id in s.leases && s.leases[id].slotId == m.slotId && s.leases[id].status == Active ==>
         start + m.duration <= s.leases[id].starts || s.leases[id].ends <= start
  }

  lemma RefusedIff(s: State, env: Env, m: LeaseMsg)
    requires 0 <= s.now <= MAX_INT64
    ensures LeaseRefusal(s, env, m) == None <==>
      TermsMet(s, m) && TimeFree(s, m) && env.validUrl(m.url) && IsAddress(m.lessee)
    ensures LeaseRefusal(s, env, m) == None ==>
      StartTime(s, m) == RequestedStart(s, m) && EndTime(s, m) == RequestedStart(s, m) + m.duration
  {
  }

  /**
   * A lease is granted if and only if its terms are met, its time is free and the lessee can pay the rate per unit.
   * It runs exactly for the requested time, fully escrowed by the lessee in favour of the slot's publisher, and no
   * other lease changes.
   */
  lemma LeaseGranted(s: State, env: Env, m: LeaseMsg)
    requires MarketInv(s) && 0 <= s.now <= MAX_INT64
    ensures LeaseSlot(s, env, m).Ok? <==>
      && TermsMet(s, m) && TimeFree(s, m) && env.validUrl(m.url) && IsAddress(m.lessee)
      && s.slots[m.slotId].rate * m.duration <= Balance(s.bank, User(m.lessee), s.slots[m.slotId].denom) * s.slots[m.slotId].unit
    ensures LeaseSlot(s, env, m).Ok? ==>
      var t, slot, id := LeaseSlot(s, env, m).value, s.slots[m.slotId], LeaseId(s.leaseSeq + 1);
      var start, total := RequestedStart(s, m), t.leases[id].total;
      && total * slot.unit == slot.rate * m.duration
      && t.leases == s.leases[id := Lease(m.slotId, slot.publisher, m.lessee, start, start + m.duration, slot.denom,
                                          total, total, 0, Active, s.now, 0)]
      && Balance(t.bank, User(m.lessee), slot.denom) == Balance(s.bank, User(m.lessee), slot.denom) - total
      && Balance(t.bank, REGISTRY, slot.denom) == Balance(s.bank, REGISTRY, slot.denom) + total
  {
    RefusedIff(s, env, m);
    if LeaseRefusal(s, env, m) == None {
      var slot := s.slots[m.slotId];
      PriceExact(slot.rate, m.duration, slot.unit);
      PriceCovered(LeasePrice(slot, m.duration), slot.rate * m.duration, slot.unit, Balance(s.bank, User(m.lessee), slot.denom));
    }
  }

  lemma PriceCovered(price: int, product: int, unit: int, balance: int)
    requires unit > 0 && price * unit == product
    ensures price <= balance <==> product <= balance * unit
  {
    if price <= balance { MulMono(price, balance, unit); } else { MulMonoStrict(balance, price, unit); }
  }

  lemma PriceExact(rate: int, duration: int, unit: int)
    requires unit > 0 && duration % unit == 0
    ensures rate * (duration / unit) * unit == rate * duration
  {
    DivMod(duration, unit);
    MulAssoc(rate, duration / unit, unit);
  }
}
