// The assignment store, the unsettled-round index and the record of paid rounds
// (x/registry/verification_keeper.go, verification_rounds.go, module.go).
module Rounds {
  import opened Base
  import opened Orders
  import opened StoreKeys
  import opened ChainState
  import opened DrandSchedule
  import opened Votes

  /** settlements is history: the rounds paid out, in order. */
  datatype Calendar = Calendar(docket: Docket, unsettled: set<int>, lastRound: Option<int>, settlements: seq<int>)

  // Invariant.

  /** Some assignment of round r has not been settled. */
  ghost predicate OpenRound(docket: Docket, r: int) {
    exists k :: k in docket && k.round == r && !docket[k].settled
  }

  /** Round r has assignments, and all of them are finalized and settled. */
  ghost predicate PaidRound(docket: Docket, r: int) {
    && (exists k :: k in docket && k.round == r)
    && (forall k :: k in docket && k.round == r ==> docket[k].settled && docket[k].finalized)
  }

  /** The index agrees with the store. */
  ghost predicate IndexExact(docket: Docket, unsettled: set<int>) {
    forall r :: r in unsettled <==> OpenRound(docket, r)
  }

  /** A round's assignments are all settled or all unsettled. */
  ghost predicate Uniform(docket: Docket) {
    forall k, l :: k in docket && l in docket && k.round == l.round ==> docket[k].settled == docket[l].settled
  }

  ghost predicate Scheduled(docket: Docket, lastRound: Option<int>, interval: int)
    requires interval > 0
  {
    forall k :: k in docket ==> lastRound.Some? && 0 < k.round <= lastRound.value && OnGrid(k.round, interval)
  }

  /** Each round is paid at most once, and only when all of it is settled. */
  ghost predicate PaidOnce(docket: Docket, settlements: seq<int>) {
    NoDup(settlements) && forall i :: 0 <= i < |settlements| ==> PaidRound(docket, settlements[i])
  }

  ghost predicate CalendarOk(c: Calendar, interval: int)
    requires interval > 0
  {
    && IndexExact(c.docket, c.unsettled)
    && Uniform(c.docket)
    && Scheduled(c.docket, c.lastRound, interval)
    && PaidOnce(c.docket, c.settlements)
  }

  // Finalizing one assignment.

  function MarkFinalized(c: Calendar, k: AssignmentId, now: int, verified: bool): Calendar
    requires k in c.docket
  {
    var a := c.docket[k].(finalized := true, finalizedAt := now, verified := verified);
    c.(docket := c.docket[k := a], unsettled := if a.settled then c.unsettled else c.unsettled + {k.round})
  }

  lemma SameOpenRounds(docket: Docket, k: AssignmentId, a: Assignment, r: int)
    requires k in docket && a.settled == docket[k].settled
    ensures OpenRound(docket[k := a], r) <==> OpenRound(docket, r)
  {
    var after := docket[k := a];
    if OpenRound(docket, r) {
      var l :| l in docket && l.round == r && !docket[l].settled;
      assert l in after && l.round == r && !after[l].settled;
    }
    if OpenRound(after, r) {
      var l :| l in after && l.round == r && !after[l].settled;
      assert l in docket && l.round == r && !docket[l].settled;
    }
  }

  lemma StillPaid(docket: Docket, k: AssignmentId, a: Assignment, r: int)
    requires k in docket && a.settled == docket[k].settled && a.finalized && PaidRound(docket, r)
    ensures PaidRound(docket[k := a], r)
  {
    var l :| l in docket && l.round == r;
    assert l in docket[k := a];
  }

  lemma MarkFinalizedKeeps(c: Calendar, k: AssignmentId, now: int, verified: bool, interval: int)
    requires interval > 0 && CalendarOk(c, interval) && k in c.docket
    ensures CalendarOk(MarkFinalized(c, k, now, verified), interval)
    ensures MarkFinalized(c, k, now, verified).unsettled == c.unsettled
    ensures DutiesKept(c.docket, MarkFinalized(c, k, now, verified).docket)
  {
    var a := c.docket[k].(finalized := true, finalizedAt := now, verified := verified);
    assert !a.settled ==> OpenRound(c.docket, k.round);
    forall r
      ensures OpenRound(c.docket[k := a], r) <==> OpenRound(c.docket, r)
    {
      SameOpenRounds(c.docket, k, a, r);
    }
    forall i | 0 <= i < |c.settlements|
      ensures PaidRound(c.docket[k := a], c.settlements[i])
    {
      StillPaid(c.docket, k, a, c.settlements[i]);
    }
  }

  // Settling one round.

  /** ListAssignmentsForRound. */
  function RoundKeys(docket: Docket, r: int): set<AssignmentId> {
    set k | k in docket && k.round == r
  }

  predicate AllFinalized(docket: Docket, r: int) {
    forall k :: k in RoundKeys(docket, r) ==> docket[k].finalized
  }

  predicate AllSettled(docket: Docket, r: int) {
    forall k :: k in RoundKeys(docket, r) ==> docket[k].settled
  }

  predicate NoneSettled(docket: Docket, r: int) {
    forall k :: k in RoundKeys(docket, r) ==> !docket[k].settled
  }

  datatype Decision = Clear | Wait | Refuse | Pay

  /** The branches of settleFinalizedVerificationRounds for one indexed round. */
  function Decide(docket: Docket, r: int): Decision {
    if AllSettled(docket, r) then Clear
    else if !AllFinalized(docket, r) then Wait
    else if !NoneSettled(docket, r) then Refuse
    else Pay
  }

  /** In every state that keeps the invariant an indexed round is paid or waits: it is never partially settled. */
  lemma NeverPartiallySettled(c: Calendar, r: int, interval: int)
    requires interval > 0 && CalendarOk(c, interval) && r in c.unsettled
    ensures Decide(c.docket, r) == if AllFinalized(c.docket, r) then Pay else Wait
    ensures r !in c.settlements
  {
    assert OpenRound(c.docket, r);
    var k :| k in c.docket && k.round == r && !c.docket[k].settled;
    assert k in RoundKeys(c.docket, r);
  }

  function Settle(docket: Docket, r: int): Docket {
    map k | k in docket :: if k.round == r then docket[k].(settled := true) else docket[k]
  }

  /** markVerificationRoundRewardsSettled. */
  function MarkPaid(c: Calendar, r: int): Calendar {
    c.(docket := Settle(c.docket, r), unsettled := c.unsettled - {r}, settlements := c.settlements + [r])
  }

  lemma SettleOpenRounds(docket: Docket, r: int, q: int)
    ensures OpenRound(Settle(docket, r), q) <==> q != r && OpenRound(docket, q)
  {
    var after := Settle(docket, r);
    if q != r && OpenRound(docket, q) {
      var l :| l in docket && l.round == q && !docket[l].settled;
      assert l in after && l.round == q && !after[l].settled;
    }
    if OpenRound(after, q) {
      var l :| l in after && l.round == q && !after[l].settled;
      assert l in docket && l.round == q && !docket[l].settled;
    }
  }

  lemma SettleStillPaid(docket: Docket, r: int, q: int)
    requires PaidRound(docket, q)
    ensures PaidRound(Settle(docket, r), q)
  {
    var l :| l in docket && l.round == q;
    assert l in Settle(docket, r);
  }

  lemma NowPaid(docket: Docket, r: int)
    requires AllFinalized(docket, r) && RoundKeys(docket, r) != {}
    ensures PaidRound(Settle(docket, r), r)
  {
    var l :| l in RoundKeys(docket, r);
    var after := Settle(docket, r);
    assert l in after && l.round == r;
    forall k | k in after && k.round == r
      ensures after[k].settled && after[k].finalized
    {
      assert k in RoundKeys(docket, r);
    }
  }

  lemma MarkPaidKeeps(c: Calendar, r: int, interval: int)
    requires interval > 0 && CalendarOk(c, interval) && r in c.unsettled && AllFinalized(c.docket, r)
    ensures CalendarOk(MarkPaid(c, r), interval)
    ensures DutiesKept(c.docket, MarkPaid(c, r).docket)
  {
    assert OpenRound(c.docket, r);
    var k :| k in c.docket && k.round == r && !c.docket[k].settled;
    assert k in RoundKeys(c.docket, r);
    NowPaid(c.docket, r);
    forall q
      ensures OpenRound(Settle(c.docket, r), q) <==> q != r && OpenRound(c.docket, q)
    {
      SettleOpenRounds(c.docket, r, q);
    }
    forall i | 0 <= i < |c.settlements|
      ensures PaidRound(Settle(c.docket, r), c.settlements[i]) && c.settlements[i] != r
    {
      SettleStillPaid(c.docket, r, c.settlements[i]);
    }
  }

  // Assigning a new round.

  function AddRound(c: Calendar, r: int, added: Docket): Calendar {
    Calendar(c.docket + added, if added == map[] then c.unsettled else c.unsettled + {r}, Some(r), c.settlements)
  }

  /** The assignments of a new round: all of that round, none settled. */
  ghost predicate FreshRound(added: Docket, r: int) {
    forall k :: k in added ==> k.round == r && !added[k].settled && !added[k].finalized
  }

  predicate Later(lastRound: Option<int>, r: int) {
    0 < r && (lastRound.Some? ==> lastRound.value < r)
  }

  lemma AddOpenRounds(docket: Docket, added: Docket, r: int, q: int)
    requires FreshRound(added, r) && docket.Keys !! added.Keys
    ensures OpenRound(docket + added, q) <==> OpenRound(docket, q) || (q == r && added != map[])
  {
    var after := docket + added;
    if OpenRound(docket, q) {
      var l :| l in docket && l.round == q && !docket[l].settled;
      assert l in after && l.round == q && !after[l].settled;
    }
    if q == r && added != map[] {
      assert added.Keys != {};
      var l :| l in added.Keys;
      assert l in after && l.round == r && !after[l].settled;
    }
    if OpenRound(after, q) {
      var l :| l in after && l.round == q && !after[l].settled;
      assert l in docket ==> l in docket && l.round == q && !docket[l].settled;
    }
  }

  lemma AddStillPaid(docket: Docket, added: Docket, r: int, q: int)
    requires FreshRound(added, r) && q != r && PaidRound(docket, q)
    ensures PaidRound(docket + added, q)
  {
    var l :| l in docket && l.round == q;
    assert l in docket + added;
  }

  /** A round is assigned once: its assignments are new and no paid round gains any. */
  lemma AddRoundKeeps(c: Calendar, r: int, added: Docket, interval: int)
    requires interval > 0 && CalendarOk(c, interval) && FreshRound(added, r) && Later(c.lastRound, r) && OnGrid(r, interval)
    ensures c.docket.Keys !! added.Keys
    ensures CalendarOk(AddRound(c, r, added), interval)
    ensures DutiesKept(c.docket, AddRound(c, r, added).docket)
  {
    assert forall k :: k in c.docket ==> k.round < r;
    forall q
      ensures OpenRound(c.docket + added, q) <==> OpenRound(c.docket, q) || (q == r && added != map[])
    {
      AddOpenRounds(c.docket, added, r, q);
    }
    forall i | 0 <= i < |c.settlements|
      ensures PaidRound(c.docket + added, c.settlements[i])
    {
      assert PaidRound(c.docket, c.settlements[i]);
      var l :| l in c.docket && l.round == c.settlements[i];
      AddStillPaid(c.docket, added, r, c.settlements[i]);
    }
  }

  // The upgrade to round-level settlement.

  function RoundsOf(docket: Docket): set<int> {
    set k | k in docket :: k.round
  }

  function SettleAll(docket: Docket): Docket {
    map k | k in docket :: docket[k].(settled := true)
  }

  /** migrate2To3: every assignment counts as handled and leaves the index. */
  function Migrate(c: Calendar): Calendar {
    c.(docket := SettleAll(c.docket), unsettled := c.unsettled - RoundsOf(c.docket))
  }

  /** What the store looks like before the upgrade: no round has been paid, the index holds nothing foreign. */
  ghost predicate Unmigrated(c: Calendar, interval: int)
    requires interval > 0
  {
    && c.unsettled <= RoundsOf(c.docket)
    && Scheduled(c.docket, c.lastRound, interval)
    && c.settlements == []
  }

  lemma NothingOpen(docket: Docket, r: int)
    ensures !OpenRound(SettleAll(docket), r)
  {
  }

  /** The upgrade establishes the settlement invariant, whatever mixture of settled flags it starts from. */
  lemma MigrateEstablishes(c: Calendar, interval: int)
    requires interval > 0 && Unmigrated(c, interval)
    ensures CalendarOk(Migrate(c), interval)
    ensures DutiesKept(c.docket, Migrate(c).docket)
    ensures Migrate(c).unsettled == {}
  {
    forall r
      ensures !OpenRound(SettleAll(c.docket), r)
    {
      NothingOpen(c.docket, r);
    }
  }

  /** ... and keeps it where it already holds. */
  lemma MigrateKeeps(c: Calendar, interval: int)
    requires interval > 0 && CalendarOk(c, interval)
    ensures CalendarOk(Migrate(c), interval)
    ensures DutiesKept(c.docket, Migrate(c).docket)
  {
    forall r
      ensures r !in Migrate(c).unsettled && !OpenRound(SettleAll(c.docket), r)
    {
      NothingOpen(c.docket, r);
      if r in c.unsettled {
        assert OpenRound(c.docket, r);
        var k :| k in c.docket && k.round == r && !c.docket[k].settled;
        assert k.round in RoundsOf(c.docket);
      }
    }
    forall i | 0 <= i < |c.settlements|
      ensures PaidRound(SettleAll(c.docket), c.settlements[i])
    {
      assert PaidRound(c.docket, c.settlements[i]);
      var l :| l in c.docket && l.round == c.settlements[i];
      assert l in SettleAll(c.docket);
    }
  }
}
