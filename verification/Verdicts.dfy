// What a finalized assignment does to its website, slots and leases
// (x/registry/verification_rounds.go, finalizeAssignments; lease_settlement.go; slot_keeper.go).
module Verdicts {
  import opened Base
  import opened Arith
  import opened Bank
  import opened Domains
  import opened PublisherParams
  import opened Tally
  import opened ChainState
  import opened Market
  import opened LeaseSettlement
  import opened Sums

  /** What a verdict touches. */
  datatype Estate = Estate(websites: map<string, Website>, streaks: map<string, int>, slots: map<string, Slot>, book: Book)

  // Cooldown.

  /** computeCooldownSeconds: the base doubled count - 1 times in int64. */
  function CooldownSeconds(base: int, count: int): int
    decreases count
  {
    if base <= 0 || count <= 0 then 0
    else if count == 1 then base
    else Wrap64(CooldownSeconds(base, count - 1) * 2)
  }

  function Pow2(n: nat): nat {
    if n == 0 then 1 else 2 * Pow2(n - 1)
  }

  lemma WrapShift(x: int, k: int)
    ensures Wrap64(x + k * TWO_64) == Wrap64(x)
  {
    ModShift(x + MAX_INT64 + 1, k, TWO_64);
  }

  /** Wrapping before doubling makes no difference. */
  lemma WrapDouble(x: int)
    ensures Wrap64(Wrap64(x) * 2) == Wrap64(x * 2)
  {
    DivMod(x + MAX_INT64 + 1, TWO_64);
    var k := (x + MAX_INT64 + 1) / TWO_64;
    assert Wrap64(x) == x - k * TWO_64;
    WrapShift(x * 2, -2 * k);
  }

  /** The doubling loop computes the base times a power of two, modulo 2^64. */
  lemma {:induction false} CooldownIsPower(base: int, count: int)
    requires 0 < base <= MAX_INT64 && count > 0
    ensures CooldownSeconds(base, count) == Wrap64(base * Pow2(count - 1))
    decreases count
  {
    if count > 1 {
      CooldownIsPower(base, count - 1);
      WrapDouble(base * Pow2(count - 2));
      MulAssoc(base, 2, Pow2(count - 2));
    }
  }

  method ComputeCooldownSeconds(base: int, count: int) returns (duration: int)
    ensures duration == CooldownSeconds(base, count)
    ensures 0 < base <= MAX_INT64 && count > 0 ==> duration == Wrap64(base * Pow2(count - 1))
    ensures base <= 0 || count <= 0 ==> duration == 0
  {
    if 0 < base <= MAX_INT64 && count > 0 { CooldownIsPower(base, count); }
    if base <= 0 || count <= 0 { return 0; }
    duration := base;
    var i := 1;
    while i < count
      invariant 1 <= i <= count
      invariant duration == CooldownSeconds(base, i)
    {
      duration := Wrap64(duration * 2);
      i := i + 1;
    }
  }

  function CooldownEnd(w: Website, p: Params, now: int): int {
    Wrap64(now + CooldownSeconds(p.cooldownBase, w.cooldownCount + 1))
  }

  /** applyPublisherCooldown rejects a duration that overflowed, UpsertWebsite an end that did. */
  predicate CooldownFits(w: Website, p: Params, now: int) {
    CooldownSeconds(p.cooldownBase, w.cooldownCount + 1) > 0 && CooldownEnd(w, p, now) >= 0
  }

  // Failure streak.

  const MAX_INT32 := 0x7fff_ffff

  function Streak(streaks: map<string, int>, d: string): int {
    if d in streaks then streaks[d] else 0
  }

  function SetStreak(streaks: map<string, int>, d: string, n: int): map<string, int> {
    if n <= 0 then streaks - {d} else streaks[d := n]
  }

  /** IncrementPublisherFailureStreak; the int32 counter falls back to zero when it overflows. */
  function NextStreak(n: int): int {
    if n >= MAX_INT32 then 0 else n + 1
  }

  // The branches of a verdict.

  /** transferSlotsForDomain. */
  function Transfer(slots: map<string, Slot>, domain: string, from: string, to: string): map<string, Slot> {
    map id | id in slots ::
      if slots[id].domain == domain && slots[id].publisher == from then slots[id].(publisher := to) else slots[id]
  }

  /** The candidate the assignment was created for is still the pending one. */
  predicate Matches(w: Website, a: Assignment) {
    w.pendingOwner != "" && w.pendingOwner == a.owner
  }

  function NewOwner(w: Website, height: int): Website {
    Website(w.pendingOwner, Verified, w.pendingReferrer, height, 0, 0, "", "")
  }

  function Accept(e: Estate, d: string, height: int): Estate
    requires d in e.websites
  {
    var w := e.websites[d];
    Estate(e.websites[d := NewOwner(w, height)], e.streaks - {d}, Transfer(e.slots, d, w.owner, w.pendingOwner), e.book)
  }

  function Reject(e: Estate, d: string): Estate
    requires d in e.websites
  {
    e.(websites := e.websites[d := e.websites[d].(pendingOwner := "", pendingReferrer := "")])
  }

  function Pass(e: Estate, d: string): Estate
    requires d in e.websites
  {
    e.(websites := e.websites[d := e.websites[d].(status := Verified, cooldownUntil := 0, cooldownCount := 0)],
       streaks := e.streaks - {d})
  }

  function FailedSite(w: Website, failures: int, p: Params): Website {
    if w.status != Verified then w
    else w.(status := if failures >= p.RevokeThreshold() then Revoked else Pending)
  }

  /** The failure is counted and a verified publisher loses its status. */
  function Demote(e: Estate, d: string, p: Params): Estate
    requires d in e.websites
  {
    var w := e.websites[d];
    var failures := NextStreak(Streak(e.streaks, d));
    e.(websites := e.websites[d := FailedSite(w, failures, p)],
       streaks := if w.status == Revoked then e.streaks else SetStreak(e.streaks, d, failures))
  }

  /** Cooldown, and refund of the leases on air. */
  function Punish(e: Estate, d: string, p: Params, now: int): Result<Estate, Error>
    requires d in e.websites
  {
    var w := e.websites[d];
    if OnAir(e.book.leases, e.slots, d, now) == {} || w.cooldownUntil > now then Ok(e)
    else if !CooldownFits(w, p, now) then Err(CooldownOverflow)
    else
      match ViolateLeases(e.book, e.slots, d, now)
      case Err(x) => Err(x)
      case Ok(b) =>
        Ok(e.(websites := e.websites[d := CooledDown(w, p, now)], book := b))
  }

  function Fail(e: Estate, d: string, p: Params, now: int): Result<Estate, Error>
    requires d in e.websites
  {
    Punish(Demote(e, d, p), d, p, now)
  }

  function Judge(e: Estate, d: string, a: Assignment, t: Stats, p: Params, now: int, height: int): Result<Estate, Error> {
    if d !in e.websites then Ok(e)
    else if a.reregistration then
      if !Matches(e.websites[d], a) then Ok(e)
      else if MajorityPass(t) then Ok(Accept(e, d, height))
      else if HasQuorum(t) then Ok(Reject(e, d))
      else Ok(e)
    else if MajorityPass(t) then Ok(Pass(e, d))
    else if HasQuorum(t) then Fail(e, d, p, now)
    else Ok(e)
  }

  /** The verified flag of the assignment; a stale candidate earns nothing. */
  predicate Earned(e: Estate, d: string, a: Assignment, t: Stats) {
    MajorityPass(t) && (a.reregistration && d in e.websites ==> Matches(e.websites[d], a))
  }

  // Slots and leases stay in order.

  ghost predicate EstateOk(e: Estate, slotSeq: nat, leaseSeq: nat, gifts: Ledger) {
    SlotsOk(e.slots, e.websites, slotSeq) && BookOk(e.book, e.slots, leaseSeq, gifts)
  }

  /** Slots and leases that refer to a renamed slot book still refer to existing slots. */
  lemma SameSlotIds(b: Book, slots: map<string, Slot>, other: map<string, Slot>, leaseSeq: nat, gifts: Ledger)
    requires BookOk(b, slots, leaseSeq, gifts) && other.Keys == slots.Keys
    ensures BookOk(b, other, leaseSeq, gifts)
  {
  }

  /** Transferring the old owner's slots of the domain keeps every slot with its website's owner. */
  lemma TransferKeeps(slots: map<string, Slot>, websites: map<string, Website>, slotSeq: nat, d: string, w: Website)
    requires SlotsOk(slots, websites, slotSeq) && d in websites
    ensures SlotsOk(Transfer(slots, d, websites[d].owner, w.owner), websites[d := w], slotSeq)
  {
    var after, sites := Transfer(slots, d, websites[d].owner, w.owner), websites[d := w];
    forall id | id in after
      ensures after[id].domain in sites && after[id].publisher == sites[after[id].domain].owner && SlotNumbered(id, slotSeq)
    {
      assert slots[id].domain in websites && slots[id].publisher == websites[slots[id].domain].owner && SlotNumbered(id, slotSeq);
    }
  }

  /** Rewriting a website without touching its owner keeps the slots in order. */
  lemma SameOwnerKeeps(slots: map<string, Slot>, websites: map<string, Website>, slotSeq: nat, d: string, w: Website)
    requires SlotsOk(slots, websites, slotSeq) && d in websites && w.owner == websites[d].owner
    ensures SlotsOk(slots, websites[d := w], slotSeq)
  {
  }

  lemma AcceptKeeps(e: Estate, d: string, height: int, slotSeq: nat, leaseSeq: nat, gifts: Ledger)
    requires EstateOk(e, slotSeq, leaseSeq, gifts) && d in e.websites
    ensures EstateOk(Accept(e, d, height), slotSeq, leaseSeq, gifts)
  {
    var w := e.websites[d];
    TransferKeeps(e.slots, e.websites, slotSeq, d, NewOwner(w, height));
    SameSlotIds(e.book, e.slots, Transfer(e.slots, d, w.owner, w.pendingOwner), leaseSeq, gifts);
  }

  lemma RewriteKeeps(e: Estate, d: string, w: Website, streaks: map<string, int>, slotSeq: nat, leaseSeq: nat, gifts: Ledger)
    requires EstateOk(e, slotSeq, leaseSeq, gifts) && d in e.websites && w.owner == e.websites[d].owner
    ensures EstateOk(e.(websites := e.websites[d := w], streaks := streaks), slotSeq, leaseSeq, gifts)
  {
    SameOwnerKeeps(e.slots, e.websites, slotSeq, d, w);
  }

  lemma PunishSucceeds(e: Estate, d: string, p: Params, now: int, slotSeq: nat, leaseSeq: nat, gifts: Ledger)
    requires EstateOk(e, slotSeq, leaseSeq, gifts) && d in e.websites
    ensures Punish(e, d, p, now).Ok? <==>
      (OnAir(e.book.leases, e.slots, d, now) == {} || e.websites[d].cooldownUntil > now || CooldownFits(e.websites[d], p, now))
  {
    var b := ViolateLeasesExact(e.book, e.slots, d, now, leaseSeq, gifts);
  }

  function CooledDown(w: Website, p: Params, now: int): Website {
    w.(cooldownCount := w.cooldownCount + 1, cooldownUntil := CooldownEnd(w, p, now))
  }

  lemma PunishedKeeps(e: Estate, d: string, w: Website, now: int, slotSeq: nat, leaseSeq: nat, gifts: Ledger) returns (r: Estate)
    requires EstateOk(e, slotSeq, leaseSeq, gifts) && d in e.websites && w.owner == e.websites[d].owner
    ensures ViolateLeases(e.book, e.slots, d, now).Ok?
    ensures r == e.(websites := e.websites[d := w], book := ViolateLeases(e.book, e.slots, d, now).value)
    ensures EstateOk(r, slotSeq, leaseSeq, gifts)
    ensures SameElsewhere(e.book.bank, r.book.bank, REGISTRY)
  {
    var b := ViolateLeasesExact(e.book, e.slots, d, now, leaseSeq, gifts);
    SameOwnerKeeps(e.slots, e.websites, slotSeq, d, w);
    r := e.(websites := e.websites[d := w], book := b);
  }

  lemma PunishKeeps(e: Estate, d: string, p: Params, now: int, slotSeq: nat, leaseSeq: nat, gifts: Ledger)
    requires EstateOk(e, slotSeq, leaseSeq, gifts) && d in e.websites && Punish(e, d, p, now).Ok?
    ensures EstateOk(Punish(e, d, p, now).value, slotSeq, leaseSeq, gifts)
    ensures SameElsewhere(e.book.bank, Punish(e, d, p, now).value.book.bank, REGISTRY)
  {
    if Punish(e, d, p, now) != Ok(e) {
      var r := PunishedKeeps(e, d, CooledDown(e.websites[d], p, now), now, slotSeq, leaseSeq, gifts);
    }
  }

  lemma JudgeKeeps(e: Estate, d: string, a: Assignment, t: Stats, p: Params, now: int, height: int,
                   slotSeq: nat, leaseSeq: nat, gifts: Ledger)
    requires EstateOk(e, slotSeq, leaseSeq, gifts) && Judge(e, d, a, t, p, now, height).Ok?
    ensures EstateOk(Judge(e, d, a, t, p, now, height).value, slotSeq, leaseSeq, gifts)
    ensures SameElsewhere(e.book.bank, Judge(e, d, a, t, p, now, height).value.book.bank, REGISTRY)
  {
    if d !in e.websites {
    } else if a.reregistration && Matches(e.websites[d], a) && MajorityPass(t) {
      AcceptKeeps(e, d, height, slotSeq, leaseSeq, gifts);
    } else if a.reregistration {
      RewriteKeeps(e, d, Reject(e, d).websites[d], e.streaks, slotSeq, leaseSeq, gifts);
    } else if MajorityPass(t) {
      RewriteKeeps(e, d, Pass(e, d).websites[d], Pass(e, d).streaks, slotSeq, leaseSeq, gifts);
    } else if HasQuorum(t) {
      RewriteKeeps(e, d, Demote(e, d, p).websites[d], Demote(e, d, p).streaks, slotSeq, leaseSeq, gifts);
      PunishKeeps(Demote(e, d, p), d, p, now, slotSeq, leaseSeq, gifts);
    }
  }

  // Status, streak and cooldown of every website.

  predicate SiteOk(w: Website, streak: int, p: Params) {
    && IsAddress(w.owner) && (w.pendingOwner != "" ==> IsAddress(w.pendingOwner))
    && 0 <= streak
    && (w.status == Verified ==> streak == 0)
    && (w.status == Revoked ==> p.RevokeThreshold() == 1)
    && 0 <= w.cooldownCount && 0 <= w.cooldownUntil
    && (w.cooldownCount > 0 ==> 0 < CooldownSeconds(p.cooldownBase, w.cooldownCount) <= w.cooldownUntil)
  }

  ghost predicate SitesOk(websites: map<string, Website>, streaks: map<string, int>, p: Params) {
    && (forall d :: d in streaks ==> streaks[d] > 0)
    && (forall d :: d in websites ==> d != "" && SiteOk(websites[d], Streak(streaks, d), p))
  }

  /** A verified publisher that fails reads streak 1, so it is revoked exactly when the threshold is 1. */
  lemma FailureReadsOne(e: Estate, d: string, p: Params)
    requires SitesOk(e.websites, e.streaks, p) && d in e.websites && e.websites[d].status == Verified
    ensures Streak(Demote(e, d, p).streaks, d) == 1
    ensures Demote(e, d, p).websites[d].status == Revoked <==> p.RevokeThreshold() == 1
  {
    assert SiteOk(e.websites[d], Streak(e.streaks, d), p);
  }

  /** An accepted cooldown is exact: nothing wrapped around. */
  lemma AcceptedCooldownExact(w: Website, streak: int, p: Params, now: int)
    requires SiteOk(w, streak, p) && w.cooldownUntil <= now && 0 <= now <= MAX_INT64 && p.cooldownBase <= MAX_INT64
    requires CooldownFits(w, p, now)
    ensures CooldownEnd(w, p, now) == now + CooldownSeconds(p.cooldownBase, w.cooldownCount + 1)
    ensures w.cooldownCount > 0 ==>
      CooldownSeconds(p.cooldownBase, w.cooldownCount + 1) == 2 * CooldownSeconds(p.cooldownBase, w.cooldownCount)
  {
  }

  lemma PunishKeepsSites(e: Estate, d: string, p: Params, now: int)
    requires SitesOk(e.websites, e.streaks, p) && d in e.websites
    requires 0 <= now <= MAX_INT64 && p.cooldownBase <= MAX_INT64
    requires Punish(e, d, p, now).Ok?
    ensures SitesOk(Punish(e, d, p, now).value.websites, Punish(e, d, p, now).value.streaks, p)
  {
    var w := e.websites[d];
    assert SiteOk(w, Streak(e.streaks, d), p);
    if w.cooldownUntil <= now && CooldownFits(w, p, now) { AcceptedCooldownExact(w, Streak(e.streaks, d), p, now); }
  }

  lemma JudgeKeepsSites(e: Estate, d: string, a: Assignment, t: Stats, p: Params, now: int, height: int)
    requires SitesOk(e.websites, e.streaks, p)
    requires 0 <= now <= MAX_INT64 && p.cooldownBase <= MAX_INT64
    requires Judge(e, d, a, t, p, now, height).Ok?
    ensures SitesOk(Judge(e, d, a, t, p, now, height).value.websites, Judge(e, d, a, t, p, now, height).value.streaks, p)
  {
    if d in e.websites {
      assert SiteOk(e.websites[d], Streak(e.streaks, d), p);
      if !a.reregistration && HasQuorum(t) && !MajorityPass(t) { PunishKeepsSites(Demote(e, d, p), d, p, now); }
    }
  }

  // Ownership safety.

  /** An owner changes only when a re-registration of that domain wins a majority for exactly the new owner. */
  lemma OwnerChangesByVote(e: Estate, d: string, a: Assignment, t: Stats, p: Params, now: int, height: int, site: string)
    requires Judge(e, d, a, t, p, now, height).Ok? && site in e.websites
    ensures var after := Judge(e, d, a, t, p, now, height).value;
      && site in after.websites
      && (after.websites[site].owner != e.websites[site].owner ==>
            site == d && a.reregistration && MajorityPass(t) && after.websites[site].owner == a.owner)
  {
  }

  /** A re-registration that is stale, rejected or without quorum leaves the registration and its slots as they were. */
  lemma LosingCandidateChangesNothing(e: Estate, d: string, a: Assignment, t: Stats, p: Params, now: int, height: int)
    requires a.reregistration && d in e.websites && !Earned(e, d, a, t)
    ensures Judge(e, d, a, t, p, now, height).Ok?
    ensures var after := Judge(e, d, a, t, p, now, height).value;
      && after.slots == e.slots && after.streaks == e.streaks && after.book == e.book
      && d in after.websites
      && after.websites[d].(pendingOwner := e.websites[d].pendingOwner, pendingReferrer := e.websites[d].pendingReferrer)
         == e.websites[d]
  {
  }

  // When a verdict fails.

  /** The judgement fails a website that has leases on air and is out of cooldown, so that a cooldown starts. */
  predicate StartsCooldown(e: Estate, d: string, a: Assignment, t: Stats, now: int) {
    && d in e.websites && !a.reregistration && HasQuorum(t) && !MajorityPass(t)
    && OnAir(e.book.leases, e.slots, d, now) != {} && e.websites[d].cooldownUntil <= now
  }

  /** The length of the next cooldown without wrap-around: the base, then twice the last one. */
  function NextCooldown(w: Website, p: Params): int {
    if w.cooldownCount == 0 then p.cooldownBase else 2 * CooldownSeconds(p.cooldownBase, w.cooldownCount)
  }

  /** A cooldown that may start is accepted if and only if its exact end fits an int64. */
  lemma FitsIff(w: Website, streak: int, p: Params, now: int)
    requires SiteOk(w, streak, p) && w.cooldownUntil <= now && 0 <= now <= MAX_INT64 && 0 < p.cooldownBase <= MAX_INT64
    ensures CooldownFits(w, p, now) <==> now + NextCooldown(w, p) <= MAX_INT64
  {
    if now + NextCooldown(w, p) > MAX_INT64 && NextCooldown(w, p) <= MAX_INT64 {
      assert CooldownEnd(w, p, now) == now + NextCooldown(w, p) - TWO_64;
    }
  }

  /** A verdict fails if and only if it starts a cooldown whose exact end does not fit an int64; the refunds never fail. */
  lemma JudgeIff(e: Estate, d: string, a: Assignment, t: Stats, p: Params, now: int, height: int,
                 slotSeq: nat, leaseSeq: nat, gifts: Ledger)
    requires EstateOk(e, slotSeq, leaseSeq, gifts) && SitesOk(e.websites, e.streaks, p)
    requires 0 <= now <= MAX_INT64 && 0 < p.cooldownBase <= MAX_INT64
    ensures Judge(e, d, a, t, p, now, height).Ok? <==>
      (StartsCooldown(e, d, a, t, now) ==> now + NextCooldown(e.websites[d], p) <= MAX_INT64)
  {
    if d in e.websites && !a.reregistration && HasQuorum(t) && !MajorityPass(t) {
      var f := Demote(e, d, p);
      RewriteKeeps(e, d, f.websites[d], f.streaks, slotSeq, leaseSeq, gifts);
      PunishSucceeds(f, d, p, now, slotSeq, leaseSeq, gifts);
      assert SiteOk(e.websites[d], Streak(e.streaks, d), p);
      SameCooldown(e.websites[d], f.websites[d], p, now);
      if e.websites[d].cooldownUntil <= now { FitsIff(e.websites[d], Streak(e.streaks, d), p, now); }
    }
  }

  lemma SameCooldown(w: Website, demoted: Website, p: Params, now: int)
    requires demoted.cooldownCount == w.cooldownCount
    ensures CooldownFits(demoted, p, now) <==> CooldownFits(w, p, now)
  {
  }

  /** A repeated cooldown starts after the last one ended, so within a third of the clock's range it always fits. */
  lemma RepeatedCooldownFits(w: Website, streak: int, p: Params, now: int)
    requires SiteOk(w, streak, p) && w.cooldownUntil <= now && 3 * now <= MAX_INT64 && w.cooldownCount > 0
    ensures now + NextCooldown(w, p) <= MAX_INT64
  {
  }

  /** So within that range a verdict fails if and only if it starts a first cooldown whose base does not fit. */
  lemma JudgeFailsIff(e: Estate, d: string, a: Assignment, t: Stats, p: Params, now: int, height: int,
                      slotSeq: nat, leaseSeq: nat, gifts: Ledger)
    requires EstateOk(e, slotSeq, leaseSeq, gifts) && SitesOk(e.websites, e.streaks, p)
    requires 0 <= 3 * now <= MAX_INT64 && 0 < p.cooldownBase <= MAX_INT64
    ensures Judge(e, d, a, t, p, now, height).Err? <==>
      StartsCooldown(e, d, a, t, now) && e.websites[d].cooldownCount == 0 && now + p.cooldownBase > MAX_INT64
  {
    JudgeIff(e, d, a, t, p, now, height, slotSeq, leaseSeq, gifts);
    if StartsCooldown(e, d, a, t, now) {
      assert SiteOk(e.websites[d], Streak(e.streaks, d), p);
      if e.websites[d].cooldownCount > 0 { RepeatedCooldownFits(e.websites[d], Streak(e.streaks, d), p, now); }
    }
  }

  // A verdict on one website leaves the others alone.

  lemma TransferOnAir(leases: map<string, Lease>, slots: map<string, Slot>, d: string, from: string, to: string, other: string, now: int)
    ensures OnAir(leases, Transfer(slots, d, from, to), other, now) == OnAir(leases, slots, other, now)
  {
  }

  lemma RefundOnAir(before: map<string, Lease>, after: map<string, Lease>, slots: map<string, Slot>, d: string, other: string, now: int)
    requires RefundedExactly(before, after, OnAir(before, slots, d, now), now) && other != d
    ensures OnAir(after, slots, other, now) == OnAir(before, slots, other, now)
  {
  }

  lemma PunishElsewhere(e: Estate, d: string, p: Params, now: int, other: string, slotSeq: nat, leaseSeq: nat, gifts: Ledger)
    requires EstateOk(e, slotSeq, leaseSeq, gifts) && d in e.websites && other != d && Punish(e, d, p, now).Ok?
    ensures var f := Punish(e, d, p, now).value;
      && f.websites == e.websites[d := f.websites[d]]
      && OnAir(f.book.leases, f.slots, other, now) == OnAir(e.book.leases, e.slots, other, now)
  {
    if Punish(e, d, p, now) != Ok(e) {
      var b := ViolateLeasesExact(e.book, e.slots, d, now, leaseSeq, gifts);
      RefundOnAir(e.book.leases, b.leases, e.slots, d, other, now);
    }
  }

  lemma JudgeElsewhere(e: Estate, d: string, a: Assignment, t: Stats, p: Params, now: int, height: int, other: string,
                       slotSeq: nat, leaseSeq: nat, gifts: Ledger)
    requires EstateOk(e, slotSeq, leaseSeq, gifts) && Judge(e, d, a, t, p, now, height).Ok? && other != d
    ensures var f := Judge(e, d, a, t, p, now, height).value;
      && (other in f.websites <==> other in e.websites) && (other in e.websites ==> f.websites[other] == e.websites[other])
      && OnAir(f.book.leases, f.slots, other, now) == OnAir(e.book.leases, e.slots, other, now)
  {
    if d in e.websites && a.reregistration {
      TransferOnAir(e.book.leases, e.slots, d, e.websites[d].owner, e.websites[d].pendingOwner, other, now);
    } else if d in e.websites && HasQuorum(t) && !MajorityPass(t) {
      var f := Demote(e, d, p);
      RewriteKeeps(e, d, f.websites[d], f.streaks, slotSeq, leaseSeq, gifts);
      PunishElsewhere(f, d, p, now, other, slotSeq, leaseSeq, gifts);
    }
  }

  // A base that is safe for every estate.

  /** A verified website with a free lease on air. */
  function RentedOut(now: int): Estate {
    Estate(map["a.com" := Website("a", Verified, "", 1, 0, 0, "", "")], map[],
           map[SlotId(1) := Slot("a", "a.com", "", 0, 1, 1, 1, SLOT_LISTED)],
           Book(map[], map[LeaseId(1) := Lease(SlotId(1), "a", "b", now, now + 1, "", 0, 0, 0, Active, now, 0)]))
  }

  /** One verifier voted, and failed the website. */
  const FAILED_CHECK := Stats("", 0, 1, 1, 0)

  const REGULAR_CHECK := Assignment(1, 2, ["v"], false, 0, false, false, "a", false)

  lemma RentedOutOk(p: Params, now: int)
    ensures EstateOk(RentedOut(now), 1, 1, map[]) && SitesOk(RentedOut(now).websites, RentedOut(now).streaks, p)
    ensures StartsCooldown(RentedOut(now), "a.com", REGULAR_CHECK, FAILED_CHECK, now) || now < 0
  {
    var e := RentedOut(now);
    assert SlotNumbered(SlotId(1), 1) && LeaseNumbered(LeaseId(1), 1) by {
      assert 1 <= 1 <= 1;
    }
    assert LeaseId(1) in OnAir(e.book.leases, e.slots, "a.com", now);
    forall d
      ensures Balance(e.book.bank, REGISTRY, d) == SumMap(EscrowOf(e.book.leases, d)) + Balance(map[], REGISTRY, d)
    {
      EscrowWrite(map[], LeaseId(1), e.book.leases[LeaseId(1)], d);
      assert e.book.leases == map[][LeaseId(1) := e.book.leases[LeaseId(1)]];
      assert EscrowOf(map[], d) == map[];
    }
  }

  /** Every verdict on every estate in order succeeds. */
  ghost predicate NeverOverflows(p: Params, now: int) {
    forall e, d, a, t, height, slotSeq: nat, leaseSeq: nat, gifts ::
      EstateOk(e, slotSeq, leaseSeq, gifts) && SitesOk(e.websites, e.streaks, p) ==> Judge(e, d, a, t, p, now, height).Ok?
  }

  /** The cooldown base is safe at a time if and only if their sum fits an int64. */
  lemma BaseSafeIff(p: Params, now: int)
    requires 0 <= 3 * now <= MAX_INT64 && 0 < p.cooldownBase <= MAX_INT64
    ensures NeverOverflows(p, now) <==> now + p.cooldownBase <= MAX_INT64
  {
    if now + p.cooldownBase > MAX_INT64 {
      RentedOutOk(p, now);
      JudgeFailsIff(RentedOut(now), "a.com", REGULAR_CHECK, FAILED_CHECK, p, now, 1, 1, 1, map[]);
    } else {
      forall e, d, a, t, height, slotSeq: nat, leaseSeq: nat, gifts
        | EstateOk(e, slotSeq, leaseSeq, gifts) && SitesOk(e.websites, e.streaks, p)
        ensures Judge(e, d, a, t, p, now, height).Ok?
      {
        JudgeFailsIff(e, d, a, t, p, now, height, slotSeq, leaseSeq, gifts);
      }
    }
  }

  /** A valid cooldown base with which a failed check ends in an error at any time after the start of the clock. */
  lemma HugeBaseFails(now: int, height: int)
    requires 0 < now && 3 * now <= MAX_INT64
    ensures var p, e := DEFAULT_PARAMS.(cooldownBase := MAX_INT64), RentedOut(now);
      && p.Valid() && p.InRange() && EstateOk(e, 1, 1, map[]) && SitesOk(e.websites, e.streaks, p)
      && Judge(e, "a.com", REGULAR_CHECK, FAILED_CHECK, p, now, height) == Err(CooldownOverflow)
  {
    var p := DEFAULT_PARAMS.(cooldownBase := MAX_INT64);
    RentedOutOk(p, now);
    JudgeFailsIff(RentedOut(now), "a.com", REGULAR_CHECK, FAILED_CHECK, p, now, height, 1, 1, map[]);
    OnlyOverflow(RentedOut(now), "a.com", REGULAR_CHECK, FAILED_CHECK, p, now, height, 1, 1, map[]);
  }

  /** An overflowing cooldown is the only error of a verdict. */
  lemma OnlyOverflow(e: Estate, d: string, a: Assignment, t: Stats, p: Params, now: int, height: int,
                     slotSeq: nat, leaseSeq: nat, gifts: Ledger)
    requires EstateOk(e, slotSeq, leaseSeq, gifts) && Judge(e, d, a, t, p, now, height).Err?
    ensures Judge(e, d, a, t, p, now, height) == Err(CooldownOverflow)
  {
    var f := Demote(e, d, p);
    RewriteKeeps(e, d, f.websites[d], f.streaks, slotSeq, leaseSeq, gifts);
    var b := ViolateLeasesExact(f.book, f.slots, d, now, leaseSeq, gifts);
  }

  // What each outcome means for the website.

  /** At least a quorum revealed. */
  predicate Decided(t: Stats) {
    0 < t.quorum <= t.passes + t.fails
  }

  /** A regular check that passes verifies the website and clears streak and cooldown, and nothing else changes. */
  lemma PassedCheck(e: Estate, d: string, a: Assignment, t: Stats, p: Params, now: int, height: int)
    requires !a.reregistration && d in e.websites && Decided(t) && t.fails < t.passes
    ensures Judge(e, d, a, t, p, now, height).Ok?
    ensures var f := Judge(e, d, a, t, p, now, height).value;
      && d in f.websites && f.websites[d].status == ChainState.Verified
      && f.websites[d].cooldownUntil == 0 && f.websites[d].cooldownCount == 0 && d !in f.streaks
      && f.websites[d].(status := e.websites[d].status, cooldownUntil := e.websites[d].cooldownUntil,
                        cooldownCount := e.websites[d].cooldownCount) == e.websites[d]
      && f.websites - {d} == e.websites - {d} && f.streaks == e.streaks - {d} && f.slots == e.slots && f.book == e.book
  {
  }

  /**
   * A winning candidate takes over the website, verified from this height on and with a clean record, and every slot of
   * the domain that the old owner had; all other websites and slots, and all leases, stay as they are.
   */
  lemma WinnerTakesOver(e: Estate, d: string, a: Assignment, t: Stats, p: Params, now: int, height: int, id: string)
    requires a.reregistration && d in e.websites && a.owner != "" && e.websites[d].pendingOwner == a.owner
    requires Decided(t) && t.fails < t.passes
    ensures Judge(e, d, a, t, p, now, height).Ok? && Earned(e, d, a, t)
    ensures var f := Judge(e, d, a, t, p, now, height).value;
      && f.websites == e.websites[d := Website(a.owner, ChainState.Verified, e.websites[d].pendingReferrer, height, 0, 0, "", "")]
      && f.streaks == e.streaks - {d} && f.book == e.book && f.slots.Keys == e.slots.Keys
      && (id in e.slots ==>
            f.slots[id] == e.slots[id].(publisher := if e.slots[id].domain == d && e.slots[id].publisher == e.websites[d].owner
                                                     then a.owner else e.slots[id].publisher))
  {
  }

  /** A candidate that a quorum turns down is withdrawn, and nothing else changes. */
  lemma CandidateRejected(e: Estate, d: string, a: Assignment, t: Stats, p: Params, now: int, height: int)
    requires a.reregistration && d in e.websites && a.owner != "" && e.websites[d].pendingOwner == a.owner
    requires Decided(t) && t.passes <= t.fails
    ensures !Earned(e, d, a, t)
    ensures Judge(e, d, a, t, p, now, height)
         == Ok(e.(websites := e.websites[d := e.websites[d].(pendingOwner := "", pendingReferrer := "")]))
  {
  }

  /** Without a quorum, for a candidate that is no longer the pending one, or for a missing website, nothing changes at all. */
  lemma NothingDecided(e: Estate, d: string, a: Assignment, t: Stats, p: Params, now: int, height: int)
    requires !Decided(t) || d !in e.websites || (a.reregistration && (a.owner == "" || e.websites[d].pendingOwner != a.owner))
    ensures Judge(e, d, a, t, p, now, height) == Ok(e)
    ensures d in e.websites ==> !Earned(e, d, a, t)
  {
  }

  /** The failure count that a failed check leaves: one more, or none once the int32 counter is exhausted. */
  function CountedFailure(streaks: map<string, int>, d: string): map<string, int> {
    if d !in streaks then streaks[d := 1]
    else if streaks[d] >= 0x7fff_ffff then streaks - {d}
    else streaks[d := streaks[d] + 1]
  }

  /** The status of a website after a failed check: only a verified one changes, to revoked exactly when the threshold is 1. */
  function StatusAfterFailure(status: SiteStatus, p: Params): SiteStatus {
    if status != ChainState.Verified then status else if p.RevokeThreshold() == 1 then Revoked else Pending
  }

  /** A failed regular check. */
  predicate CheckFailed(e: Estate, d: string, a: Assignment, t: Stats) {
    d in e.websites && !a.reregistration && Decided(t) && t.passes <= t.fails
  }

  /**
   * A failed check counts the failure unless the website is revoked, and takes its status from a verified one. With
   * leases on air, outside a running cooldown, a cooldown of the base, or of twice the last one, starts. Other websites,
   * streaks and all slots stay as they are.
   */
  lemma FailedCheck(e: Estate, d: string, a: Assignment, t: Stats, p: Params, now: int, height: int,
                    slotSeq: nat, leaseSeq: nat, gifts: Ledger)
    requires EstateOk(e, slotSeq, leaseSeq, gifts) && SitesOk(e.websites, e.streaks, p) && CheckFailed(e, d, a, t)
    requires 0 <= now <= MAX_INT64 && 0 < p.cooldownBase <= MAX_INT64 && Judge(e, d, a, t, p, now, height).Ok?
    ensures var f, w := Judge(e, d, a, t, p, now, height).value, e.websites[d];
      && f.slots == e.slots
      && f.streaks == (if w.status == Revoked then e.streaks else CountedFailure(e.streaks, d))
      && f.websites == e.websites[d :=
           if StartsCooldown(e, d, a, t, now)
           then w.(status := StatusAfterFailure(w.status, p), cooldownCount := w.cooldownCount + 1,
                   cooldownUntil := now + NextCooldown(w, p))
           else w.(status := StatusAfterFailure(w.status, p))]
  {
    var g, w := Demote(e, d, p), e.websites[d];
    DemotedFields(e, d, p);
    RewriteKeeps(e, d, g.websites[d], g.streaks, slotSeq, leaseSeq, gifts);
    PunishedExact(g, d, p, now, slotSeq, leaseSeq, gifts, "", "");
    FailedFields(e, d, a, t, p, now, height, g);
  }

  lemma FailedFields(e: Estate, d: string, a: Assignment, t: Stats, p: Params, now: int, height: int, g: Estate)
    requires CheckFailed(e, d, a, t) && 0 <= now <= MAX_INT64 && 0 < p.cooldownBase <= MAX_INT64
    requires SiteOk(e.websites[d], Streak(e.streaks, d), p)
    requires g == Demote(e, d, p) && Punish(g, d, p, now).Ok? && Judge(e, d, a, t, p, now, height) == Punish(g, d, p, now)
    requires g.websites == e.websites[d := e.websites[d].(status := StatusAfterFailure(e.websites[d].status, p))]
    requires g.slots == e.slots && g.book == e.book
    requires StartsCooldown(e, d, a, t, now) ==>
      && CooldownFits(g.websites[d], p, now)
      && Punish(g, d, p, now).value.websites == g.websites[d := CooledDown(g.websites[d], p, now)]
    requires !StartsCooldown(e, d, a, t, now) ==> Punish(g, d, p, now).value == g
    ensures var w := e.websites[d];
      Punish(g, d, p, now).value.websites == e.websites[d :=
        if StartsCooldown(e, d, a, t, now)
        then w.(status := StatusAfterFailure(w.status, p), cooldownCount := w.cooldownCount + 1,
                cooldownUntil := now + NextCooldown(w, p))
        else w.(status := StatusAfterFailure(w.status, p))]
  {
    if StartsCooldown(e, d, a, t, now) {
      StartedCooldown(e.websites[d], g.websites[d], Streak(e.streaks, d), p, now);
      RewriteTwice(e.websites, d, g.websites[d], CooledDown(g.websites[d], p, now));
    }
  }

  lemma RewriteTwice(m: map<string, Website>, d: string, x: Website, y: Website)
    ensures m[d := x][d := y] == m[d := y]
  {
  }

  /**
   * The leases that a failed check finds on air, outside a running cooldown, are refunded: exactly they become violated,
   * and every user gets back exactly the escrow of its own ones. Otherwise no lease and no balance changes.
   */
  lemma FailureRefunds(e: Estate, d: string, a: Assignment, t: Stats, p: Params, now: int, height: int,
                       slotSeq: nat, leaseSeq: nat, gifts: Ledger, user: string, denom: string)
    requires EstateOk(e, slotSeq, leaseSeq, gifts) && CheckFailed(e, d, a, t) && Judge(e, d, a, t, p, now, height).Ok?
    ensures var f := Judge(e, d, a, t, p, now, height).value;
      if !StartsCooldown(e, d, a, t, now) then f.book == e.book
      else
        && RefundedExactly(e.book.leases, f.book.leases, OnAir(e.book.leases, e.slots, d, now), now)
        && Balance(f.book.bank, User(user), denom)
           == Balance(e.book.bank, User(user), denom) + SumMap(RunningFor(e.book.leases, e.slots, d, now, user, denom))
  {
    var g := Demote(e, d, p);
    RewriteKeeps(e, d, g.websites[d], g.streaks, slotSeq, leaseSeq, gifts);
    PunishedExact(g, d, p, now, slotSeq, leaseSeq, gifts, user, denom);
  }

  lemma PunishedExact(g: Estate, d: string, p: Params, now: int, slotSeq: nat, leaseSeq: nat, gifts: Ledger, user: string, denom: string)
    requires EstateOk(g, slotSeq, leaseSeq, gifts) && d in g.websites && Punish(g, d, p, now).Ok?
    ensures var f, air := Punish(g, d, p, now).value, OnAir(g.book.leases, g.slots, d, now);
      if air == {} || now < g.websites[d].cooldownUntil then f == g
      else
        && CooldownFits(g.websites[d], p, now)
        && f.websites == g.websites[d := CooledDown(g.websites[d], p, now)] && f.streaks == g.streaks && f.slots == g.slots
        && RefundedExactly(g.book.leases, f.book.leases, air, now)
        && Balance(f.book.bank, User(user), denom)
           == Balance(g.book.bank, User(user), denom) + SumMap(RunningFor(g.book.leases, g.slots, d, now, user, denom))
  {
    var b := ViolateLeasesExact(g.book, g.slots, d, now, leaseSeq, gifts);
    ViolatePaysLessees(g.book, g.slots, d, now, leaseSeq, gifts, user, denom);
  }

  lemma DemotedFields(e: Estate, d: string, p: Params)
    requires SitesOk(e.websites, e.streaks, p) && d in e.websites
    ensures var g, w := Demote(e, d, p), e.websites[d];
      && g.streaks == (if w.status == Revoked then e.streaks else CountedFailure(e.streaks, d))
      && g.websites == e.websites[d := w.(status := StatusAfterFailure(w.status, p))]
      && g.slots == e.slots && g.book == e.book
  {
    assert SiteOk(e.websites[d], Streak(e.streaks, d), p);
  }

  lemma StartedCooldown(w: Website, demoted: Website, streak: int, p: Params, now: int)
    requires SiteOk(w, streak, p) && w.cooldownUntil <= now && 0 <= now <= MAX_INT64 && 0 < p.cooldownBase <= MAX_INT64
    requires demoted.cooldownCount == w.cooldownCount && CooldownFits(demoted, p, now)
    ensures CooledDown(demoted, p, now) == demoted.(cooldownCount := w.cooldownCount + 1, cooldownUntil := now + NextCooldown(w, p))
  {
    FitsIff(w, streak, p, now);
    AcceptedCooldownExact(w, streak, p, now);
  }
}
