// Creating the next round and accepting its beacon (x/registry/verification_rounds.go, assignNewRound;
// drand_schedule.go, PendingDrandRequirement; msg_server.go, SubmitDrandBeacon; typespb/assignment_random.go).
module Assigning {
  import opened Base
  import opened Orders
  import opened Text
  import opened Domains
  import opened PublisherParams
  import opened StoreKeys
  import opened ChainState
  import opened DrandSchedule
  import opened Votes
  import opened Rounds
  import S = Sampling

  /** What assignment reads besides the calendar. */
  datatype Scene = Scene(
    websites: map<string, Website>,
    bonds: map<string, nat>,
    minBond: nat,
    penalties: map<string, Penalty>,
    now: int,
    anchor: string)

  // Who is checked, and by whom.

  /** A website is checked when a candidate is pending, or when it is pending or verified and out of cooldown. */
  predicate Due(w: Website, r: int) {
    w.pendingOwner != "" || (w.cooldownUntil <= r && w.status != Revoked)
  }

  function DueSites(websites: map<string, Website>, r: int): set<string> {
    set d | d in websites && Due(websites[d], r)
  }

  predicate Suspended(penalties: map<string, Penalty>, v: string, now: int) {
    v in penalties && penalties[v].until > now
  }

  /** eligibleVerifierAddrs. */
  function Eligible(c: Scene): set<string> {
    set v | v in c.bonds && c.bonds[v] >= c.minBond && !Suspended(c.penalties, v, c.now)
  }

  /** ComputeAssignmentOffsetSeconds. */
  function Offset(p: Params, raw: nat): (r: nat)
    requires p.Valid()
    ensures r < p.roundInterval
  {
    if p.roundInterval >= 3600 then raw % 60 * 60 else raw % p.assignmentDelayMax
  }

  /** The hash of round seed, domain and draw number. */
  function Digest(env: Env, seed: string, d: string): nat -> nat {
    n => env.digest(seed, d, n)
  }

  /** The panel: a weighted draw from the eligible verifiers, seeded by round and domain. */
  function Panel(c: Scene, p: Params, env: Env, seed: string, d: string): (r: seq<string>)
    ensures 0 < p.minVerifierCount < |Eligible(c)| ==> |r| == p.minVerifierCount
  {
    var candidates := SortedStrings(Eligible(c));
    EnumerationElems(candidates, Eligible(c));
    EnumerationLength(candidates, Eligible(c));
    S.Select(candidates, c.bonds, p.minVerifierCount, Digest(env, seed, d))
  }

  function NewAssignment(c: Scene, p: Params, env: Env, seed: string, r: int, d: string): Assignment
    requires p.Valid() && d in c.websites
  {
    var w := c.websites[d];
    var start := Wrap64(r + Offset(p, env.offset(seed, d)));
    Assignment(start, Wrap64(start + p.submissionWindow), SortedStrings(Elems(Panel(c, p, env, seed, d))), false, 0, false, false,
               if w.pendingOwner != "" then w.pendingOwner else w.owner, w.pendingOwner != "")
  }

  function NewKeys(c: Scene, docket: Docket, r: int): (ks: set<AssignmentId>)
    ensures forall k :: k in ks ==> k.round == r && k.domain in c.websites && k !in docket
  {
    set d | d in DueSites(c.websites, r) && AssignmentId(r, d) !in docket :: AssignmentId(r, d)
  }

  function NewRound(c: Scene, p: Params, env: Env, docket: Docket, seed: string, r: int): Docket
    requires p.Valid()
  {
    map k | k in NewKeys(c, docket, r) :: NewAssignment(c, p, env, seed, r, k.domain)
  }

  // What the stores accept.

  /** ValidateBasic of an assignment, which SetAssignment checks before it writes. */
  predicate Storable(k: AssignmentId, a: Assignment) {
    && k.round > 0 && k.domain != ""
    && 0 < a.start <= a.deadline
    && (forall i :: 0 <= i < |a.verifiers| ==> IsAddress(a.verifiers[i]))
    && (if a.owner != "" then IsAddress(a.owner) else !a.reregistration)
  }

  predicate AllStorable(docket: Docket) {
    forall k :: k in docket ==> Storable(k, docket[k])
  }

  // The step.

  /** The calendar with the round metadata. */
  datatype Plan = Plan(calendar: Calendar, metas: map<int, RoundMeta>)

  predicate Opening(p: Params, now: int, lastRound: Option<int>)
    requires p.Valid()
  {
    Later(lastRound, NextRoundStart(now, p.roundInterval))
  }

  function Install(plan: Plan, c: Scene, p: Params, env: Env, r: int, drandRound: nat, randomness: string): Plan
    requires p.Valid()
  {
    var seed := SeedFor(c, env, r, drandRound, randomness);
    var meta := RoundMeta(seed, c.now, |Eligible(c)|, drandRound, randomness);
    Plan(AddRound(plan.calendar, r, NewRound(c, p, env, plan.calendar.docket, seed, r)),
         if r in plan.metas then plan.metas else plan.metas[r := meta])
  }

  function SeedFor(c: Scene, env: Env, r: int, drandRound: nat, randomness: string): string {
    env.seed(c.anchor, r, drandRound, randomness)
  }

  function RoundFor(plan: Plan, c: Scene, p: Params, env: Env, r: int, drandRound: nat, randomness: string): Docket
    requires p.Valid()
  {
    NewRound(c, p, env, plan.calendar.docket, SeedFor(c, env, r, drandRound, randomness), r)
  }

  /** New metadata needs a positive creation time, and every new assignment must be storable. */
  predicate Accepts(plan: Plan, c: Scene, p: Params, env: Env, r: int, drandRound: nat, randomness: string)
    requires p.Valid()
  {
    (r in plan.metas || c.now > 0) && AllStorable(RoundFor(plan, c, p, env, r, drandRound, randomness))
  }

  function TryInstall(plan: Plan, c: Scene, p: Params, env: Env, r: int, drandRound: nat, randomness: string): Result<Plan, Error>
    requires p.Valid()
  {
    if Accepts(plan, c, p, env, r, drandRound, randomness) then Ok(Install(plan, c, p, env, r, drandRound, randomness))
    else Err(Invalid)
  }

  /** A round whose beacon has not arrived is skipped until it does. */
  function AssignNewRound(plan: Plan, c: Scene, p: Params, env: Env, beacons: map<nat, Beacon>): Result<Plan, Error>
    requires p.Valid()
  {
    var r := NextRoundStart(c.now, p.roundInterval);
    if !Opening(p, c.now, plan.calendar.lastRound) then Ok(plan)
    else if !p.drandEnabled then TryInstall(plan, c, p, env, r, 0, "")
    else
      match RequiredRound(p, r)
      case None => Err(DrandUnavailable)
      case Some(n) => if n in beacons then TryInstall(plan, c, p, env, r, n, beacons[n].randomness) else Ok(plan)
  }

  datatype BeaconMsg = BeaconMsg(round: nat, randomness: string, signature: string, submitter: string)

  /** PendingDrandRequirement: the one beacon a block accepts; None when none is pending. */
  function PendingBeacon(p: Params, now: int, lastRound: Option<int>): Result<Option<nat>, Error>
    requires p.Valid()
  {
    var r := NextRoundStart(now, p.roundInterval);
    if !p.drandEnabled || (lastRound.Some? && r <= lastRound.value) then Ok(None)
    else
      match RequiredRound(p, r)
      case None => Err(DrandUnavailable)
      case Some(n) => Ok(Some(n))
  }

  function SubmitBeacon(beacons: map<nat, Beacon>, p: Params, env: Env, now: int, lastRound: Option<int>, m: BeaconMsg)
    : Result<map<nat, Beacon>, Error>
    requires p.Valid()
  {
    var randomness, signature := Lower(Trim(m.randomness)), Lower(Trim(m.signature));
    if PendingBeacon(p, now, lastRound) != Ok(Some(m.round)) then Err(Invalid)
    else if m.round in beacons then Err(Duplicate)
    else if |randomness| != 64 || !HexText(randomness) || signature == "" || !HexText(signature) then Err(Invalid)
    else if !env.beaconOk(m.round, randomness, signature) then Err(Invalid)
    else if now <= 0 || !IsAddress(Trim(m.submitter)) then Err(Invalid)
    else Ok(beacons[m.round := Beacon(randomness, now, Trim(m.submitter))])
  }

  // Shape of assignments.

  /** Starts within its round, runs for the submission window, and is judged by a small panel of distinct verifiers. */
  predicate DutyOk(k: AssignmentId, a: Assignment, p: Params) {
    && Storable(k, a)
    && k.round <= a.start < k.round + p.roundInterval
    && a.deadline == a.start + p.submissionWindow
    && NoDup(a.verifiers) && |a.verifiers| <= p.minVerifierCount
  }

  ghost predicate DutiesOk(docket: Docket, p: Params) {
    forall k :: k in docket ==> DutyOk(k, docket[k], p)
  }

  /** v has at least the minimum bond and no running suspension. */
  predicate MayServe(c: Scene, v: string) {
    v in c.bonds && c.minBond <= c.bonds[v] && (v in c.penalties ==> c.penalties[v].until <= c.now)
  }

  lemma EligibleMayServe(c: Scene)
    ensures Eligible(c) == set v | v in c.bonds && MayServe(c, v)
  {
  }

  /** A new panel lists, in order and once each, min(minVerifierCount, eligible) of the verifiers that may serve. */
  lemma PanelExact(c: Scene, p: Params, env: Env, seed: string, r: int, d: string)
    requires p.Valid() && d in c.websites
    ensures var panel := NewAssignment(c, p, env, seed, r, d).verifiers;
      && NoDup(panel) && Ascending(panel, LexLe)
      && |panel| == Min(p.minVerifierCount, |set v | v in c.bonds && MayServe(c, v)|)
      && (forall v :: v in panel ==> MayServe(c, v))
      && Elems(panel) == Elems(Panel(c, p, env, seed, d))
  {
    EligibleMayServe(c);
    PanelDrawn(c, p, env, seed, d);
  }

  lemma PanelDrawn(c: Scene, p: Params, env: Env, seed: string, d: string)
    requires p.Valid()
    ensures var chosen := Elems(Panel(c, p, env, seed, d));
      var panel := SortedStrings(chosen);
      && NoDup(panel) && Ascending(panel, LexLe) && |panel| == Min(p.minVerifierCount, |Eligible(c)|)
      && Elems(panel) == chosen && chosen <= Eligible(c) && forall v :: v in panel ==> v in Eligible(c)
  {
    var candidates := SortedStrings(Eligible(c));
    EnumerationLength(candidates, Eligible(c));
    EnumerationElems(candidates, Eligible(c));
    var chosen := Panel(c, p, env, seed, d);
    S.SelectDistinct(candidates, c.bonds, p.minVerifierCount, Digest(env, seed, d));
    EnumerationLength(chosen, Elems(chosen));
    var panel := SortedStrings(Elems(chosen));
    EnumerationLength(panel, Elems(chosen));
    EnumerationElems(panel, Elems(chosen));
    FullPrefix(panel);
    ChosenEligible(chosen, candidates, Eligible(c));
  }

  // How often a hash value puts a verifier on a panel.

  function Replaced(f: (string, string, nat) -> nat, seed: string, d: string, j: nat, x: nat): (string, string, nat) -> nat {
    (s: string, e: string, n: nat) => if s == seed && e == d && n == j then x else f(s, e, n)
  }

  /** The environment with one value of the draw hash replaced. */
  function WithDigest(env: Env, seed: string, d: string, j: nat, x: nat): Env {
    env.(digest := Replaced(env.digest, seed, d, j, x))
  }

  /** The values of the j-th draw hash of website d, below the stake left by the earlier members, that select v. */
  ghost function PanelSelectors(c: Scene, p: Params, env: Env, seed: string, d: string, j: nat, v: string): set<nat>
    requires j < p.minVerifierCount < |Eligible(c)|
  {
    EligibleListed(c);
    set x: nat | x < S.WeightLeft(SortedStrings(Eligible(c)), c.bonds, Panel(c, p, env, seed, d)[..j])
                 && Panel(c, p, WithDigest(env, seed, d, j, x), seed, d)[j] == v
  }

  lemma EligibleListed(c: Scene)
    ensures var names := SortedStrings(Eligible(c)); |names| == |Eligible(c)| && forall i :: 0 <= i < |names| ==> names[i] in c.bonds
  {
    EnumerationLength(SortedStrings(Eligible(c)), Eligible(c));
    EnumerationElems(SortedStrings(Eligible(c)), Eligible(c));
  }

  /**
   * Panels are drawn in proportion to stake: at every place, among the hash values below the stake left by the earlier
   * members, exactly as many select an eligible verifier as its bond, and one if the bond is zero.
   */
  lemma PanelFrequency(c: Scene, p: Params, env: Env, seed: string, d: string, j: nat, v: string)
    requires p.Valid() && j < p.minVerifierCount < |Eligible(c)|
    requires MayServe(c, v) && v !in Panel(c, p, env, seed, d)[..j]
    ensures |PanelSelectors(c, p, env, seed, d, j, v)| == if c.bonds[v] > 0 then c.bonds[v] else 1
  {
    var names, k, digest := SortedStrings(Eligible(c)), p.minVerifierCount, Digest(env, seed, d);
    EligibleListed(c);
    assert v in Eligible(c);
    S.SelectFrequency(names, c.bonds, k, digest, j, v);
    forall x: nat
      ensures Panel(c, p, WithDigest(env, seed, d, j, x), seed, d) == S.Select(names, c.bonds, k, S.With(digest, j, x))
    {
      S.SelectAgrees(names, c.bonds, k, Digest(WithDigest(env, seed, d, j, x), seed, d), S.With(digest, j, x));
    }
    assert PanelSelectors(c, p, env, seed, d, j, v) == S.Selectors(names, c.bonds, k, digest, j, v);
  }

  lemma ChosenEligible(chosen: seq<string>, candidates: seq<string>, s: set<string>)
    requires Enumerates(candidates, s) && forall a :: a in chosen ==> a in candidates
    ensures Elems(chosen) <= s
  {
  }

  /** An end time that is not before its start did not wrap around. */
  lemma WrappedEnd(start: int, window: int)
    requires 0 < start <= MAX_INT64 && 0 < window <= MAX_INT64
    ensures Wrap64(start + window) == if start + window <= MAX_INT64 then start + window else start + window - TWO_64
    ensures start <= Wrap64(start + window) <==> start + window <= MAX_INT64
  {
  }

  /** Start and deadline of a new assignment: the start never wraps; the deadline may, and is then refused. */
  lemma NewTimes(c: Scene, p: Params, env: Env, seed: string, r: int, d: string)
    requires p.Valid() && p.InRange() && d in c.websites && 0 < r <= MAX_TIME + MAX_DURATION
    ensures var a, start := NewAssignment(c, p, env, seed, r, d), r + Offset(p, env.offset(seed, d));
      && a.start == start && r <= start < r + p.roundInterval
      && (a.start <= a.deadline <==> start + p.submissionWindow <= MAX_INT64)
      && (a.start <= a.deadline ==> a.deadline == start + p.submissionWindow)
  {
    WrappedEnd(r + Offset(p, env.offset(seed, d)), p.submissionWindow);
  }

  lemma NewRoundShape(c: Scene, p: Params, env: Env, docket: Docket, seed: string, r: int)
    requires p.Valid() && p.InRange() && 0 < r <= MAX_TIME + MAX_DURATION
    ensures FreshRound(NewRound(c, p, env, docket, seed, r), r)
    ensures AllStorable(NewRound(c, p, env, docket, seed, r)) ==> DutiesOk(NewRound(c, p, env, docket, seed, r), p)
  {
    var added := NewRound(c, p, env, docket, seed, r);
    forall k | k in added && AllStorable(added)
      ensures DutyOk(k, added[k], p)
    {
      assert Storable(k, added[k]);
      PanelExact(c, p, env, seed, r, k.domain);
      NewTimes(c, p, env, seed, r, k.domain);
    }
  }

  // When assigning succeeds.

  /** Names and addresses as registration and bonding leave them. */
  ghost predicate NamesOk(c: Scene) {
    && (forall d :: d in c.websites ==>
          && d != "" && IsAddress(c.websites[d].owner)
          && (c.websites[d].pendingOwner != "" ==> IsAddress(c.websites[d].pendingOwner)))
    && (forall v :: v in c.bonds ==> IsAddress(v))
  }

  /** The deadline of website d in round r fits an int64. */
  predicate DeadlineFits(p: Params, env: Env, seed: string, r: int, d: string)
    requires p.Valid()
  {
    r + Offset(p, env.offset(seed, d)) + p.submissionWindow <= MAX_INT64
  }

  /** The clock has started and the deadline of every due website fits. */
  predicate RoundFits(c: Scene, p: Params, env: Env, r: int, drandRound: nat, randomness: string)
    requires p.Valid()
  {
    c.now > 0 && forall d :: d in DueSites(c.websites, r) ==> DeadlineFits(p, env, SeedFor(c, env, r, drandRound, randomness), r, d)
  }

  lemma StorableIff(c: Scene, p: Params, env: Env, seed: string, r: int, d: string)
    requires p.Valid() && p.InRange() && NamesOk(c) && d in c.websites && 0 < r <= MAX_TIME + MAX_DURATION
    ensures Storable(AssignmentId(r, d), NewAssignment(c, p, env, seed, r, d)) <==> DeadlineFits(p, env, seed, r, d)
  {
    NewTimes(c, p, env, seed, r, d);
    PanelExact(c, p, env, seed, r, d);
    var a := NewAssignment(c, p, env, seed, r, d);
    forall i | 0 <= i < |a.verifiers|
      ensures IsAddress(a.verifiers[i])
    {
      assert a.verifiers[i] in Elems(a.verifiers);
    }
  }

  /** A new round is accepted exactly when the clock has started and the deadline of every due website fits. */
  lemma AcceptsIff(plan: Plan, c: Scene, p: Params, env: Env, r: int, drandRound: nat, randomness: string)
    requires p.Valid() && p.InRange() && NamesOk(c) && 0 < r <= MAX_TIME + MAX_DURATION
    requires r !in plan.metas && forall k :: k in plan.calendar.docket ==> k.round != r
    ensures Accepts(plan, c, p, env, r, drandRound, randomness) <==> RoundFits(c, p, env, r, drandRound, randomness)
  {
    var seed := SeedFor(c, env, r, drandRound, randomness);
    var added := RoundFor(plan, c, p, env, r, drandRound, randomness);
    forall d | d in DueSites(c.websites, r)
      ensures AssignmentId(r, d) in added
      ensures Storable(AssignmentId(r, d), added[AssignmentId(r, d)]) <==> DeadlineFits(p, env, seed, r, d)
    {
      StorableIff(c, p, env, seed, r, d);
    }
    forall k | k in added
      ensures k == AssignmentId(r, k.domain) && k.domain in DueSites(c.websites, r)
    {
    }
  }

  // Each round is assigned once, with its one beacon.

  /** Every round has at most the metadata of its own required beacon, and that beacon is still stored. */
  ghost predicate MetasOk(metas: map<int, RoundMeta>, lastRound: Option<int>, beacons: map<nat, Beacon>, p: Params) {
    forall r :: r in metas ==>
      && lastRound.Some? && r <= lastRound.value
      && (p.drandEnabled ==>
            && RequiredRound(p, r) == Some(metas[r].drandRound)
            && metas[r].drandRound in beacons && beacons[metas[r].drandRound].randomness == metas[r].randomness)
  }

  ghost predicate PlanOk(plan: Plan, beacons: map<nat, Beacon>, p: Params)
    requires p.Valid()
  {
    && CalendarOk(plan.calendar, p.roundInterval)
    && DutiesOk(plan.calendar.docket, p)
    && MetasOk(plan.metas, plan.calendar.lastRound, beacons, p)
  }

  lemma InstallKeeps(plan: Plan, c: Scene, p: Params, env: Env, drandRound: nat, randomness: string, beacons: map<nat, Beacon>)
    requires p.Valid() && p.InRange() && 0 <= c.now <= MAX_TIME
    requires PlanOk(plan, beacons, p) && Opening(p, c.now, plan.calendar.lastRound)
    requires Accepts(plan, c, p, env, NextRoundStart(c.now, p.roundInterval), drandRound, randomness)
    requires p.drandEnabled ==>
      && RequiredRound(p, NextRoundStart(c.now, p.roundInterval)) == Some(drandRound)
      && drandRound in beacons && beacons[drandRound].randomness == randomness
    ensures var r := NextRoundStart(c.now, p.roundInterval);
      var after := Install(plan, c, p, env, r, drandRound, randomness);
      && PlanOk(after, beacons, p)
      && DutiesKept(plan.calendar.docket, after.calendar.docket)
      && plan.calendar.docket.Keys !! (after.calendar.docket.Keys - plan.calendar.docket.Keys)
      && r !in plan.metas
  {
    var r := NextRoundStart(c.now, p.roundInterval);
    NextRoundStartIsNext(c.now, p.roundInterval);
    NewRoundShape(c, p, env, plan.calendar.docket, SeedFor(c, env, r, drandRound, randomness), r);
    AddRoundKeeps(plan.calendar, r, RoundFor(plan, c, p, env, r, drandRound, randomness), p.roundInterval);
  }

  lemma AssignKeeps(plan: Plan, c: Scene, p: Params, env: Env, beacons: map<nat, Beacon>)
    requires p.Valid() && p.InRange() && 0 <= c.now <= MAX_TIME
    requires PlanOk(plan, beacons, p) && AssignNewRound(plan, c, p, env, beacons).Ok?
    ensures PlanOk(AssignNewRound(plan, c, p, env, beacons).value, beacons, p)
    ensures DutiesKept(plan.calendar.docket, AssignNewRound(plan, c, p, env, beacons).value.calendar.docket)
  {
    var r := NextRoundStart(c.now, p.roundInterval);
    var after := AssignNewRound(plan, c, p, env, beacons).value;
    if after != plan {
      if p.drandEnabled {
        var n := RequiredRound(p, r).value;
        InstallKeeps(plan, c, p, env, n, beacons[n].randomness, beacons);
      } else {
        InstallKeeps(plan, c, p, env, 0, "", beacons);
      }
    }
  }

  /** No round is due, or drand has started and the round, once its beacon is there, fits. */
  predicate AssignReady(lastRound: Option<int>, c: Scene, p: Params, env: Env, beacons: map<nat, Beacon>)
    requires p.Valid()
  {
    var r := NextRoundStart(c.now, p.roundInterval);
    Opening(p, c.now, lastRound) ==>
      if !p.drandEnabled then RoundFits(c, p, env, r, 0, "")
      else
        && RequiredRound(p, r).Some?
        && (RequiredRound(p, r).value in beacons ==>
              RoundFits(c, p, env, r, RequiredRound(p, r).value, beacons[RequiredRound(p, r).value].randomness))
  }

  /** Assigning succeeds if and only if the block is ready for it. */
  lemma AssignIff(plan: Plan, c: Scene, p: Params, env: Env, beacons: map<nat, Beacon>)
    requires p.Valid() && p.InRange() && 0 <= c.now <= MAX_TIME && NamesOk(c) && PlanOk(plan, beacons, p)
    ensures AssignNewRound(plan, c, p, env, beacons).Ok? <==> AssignReady(plan.calendar.lastRound, c, p, env, beacons)
  {
    var r := NextRoundStart(c.now, p.roundInterval);
    NextRoundStartIsNext(c.now, p.roundInterval);
    if Opening(p, c.now, plan.calendar.lastRound) {
      if !p.drandEnabled {
        AcceptsIff(plan, c, p, env, r, 0, "");
      } else if RequiredRound(p, r).Some? && RequiredRound(p, r).value in beacons {
        AcceptsIff(plan, c, p, env, r, RequiredRound(p, r).value, beacons[RequiredRound(p, r).value].randomness);
      }
    }
  }

  /** A valid submission window for which no deadline ever fits. */
  lemma HugeWindowNeverFits(env: Env, seed: string, r: int, d: string)
    requires r > 0
    ensures var p := DEFAULT_PARAMS.(submissionWindow := MAX_INT64); p.Valid() && p.InRange() && !DeadlineFits(p, env, seed, r, d)
  {
  }

  /** Assignment only adds: earlier assignments stay as they are, new ones are open and for registered domains. */
  lemma AssignAdds(plan: Plan, c: Scene, p: Params, env: Env, beacons: map<nat, Beacon>, k: AssignmentId)
    requires p.Valid() && AssignNewRound(plan, c, p, env, beacons).Ok?
    ensures var after := AssignNewRound(plan, c, p, env, beacons).value.calendar;
      && after.settlements == plan.calendar.settlements
      && (k in plan.calendar.docket ==> k in after.docket && after.docket[k] == plan.calendar.docket[k])
      && (k in after.docket && k !in plan.calendar.docket ==>
            !after.docket[k].finalized && k.domain in c.websites && k.round == NextRoundStart(c.now, p.roundInterval))
  {
  }

  lemma AssignLast(plan: Plan, c: Scene, p: Params, env: Env, beacons: map<nat, Beacon>)
    requires p.Valid() && AssignNewRound(plan, c, p, env, beacons).Ok?
    ensures AssignNewRound(plan, c, p, env, beacons).value.calendar.lastRound
            in {plan.calendar.lastRound, Some(NextRoundStart(c.now, p.roundInterval))}
  {
  }

  lemma MetasOnlyAdded(plan: Plan, c: Scene, p: Params, env: Env, beacons: map<nat, Beacon>, r: int)
    requires p.Valid() && AssignNewRound(plan, c, p, env, beacons).Ok? && r in plan.metas
    ensures var metas := AssignNewRound(plan, c, p, env, beacons).value.metas;
      r in metas && metas[r] == plan.metas[r]
  {
  }

  lemma SubmitBeaconKeeps(beacons: map<nat, Beacon>, p: Params, env: Env, now: int, lastRound: Option<int>, m: BeaconMsg,
                          metas: map<int, RoundMeta>)
    requires p.Valid() && SubmitBeacon(beacons, p, env, now, lastRound, m).Ok? && MetasOk(metas, lastRound, beacons, p)
    ensures MetasOk(metas, lastRound, SubmitBeacon(beacons, p, env, now, lastRound, m).value, p)
  {
  }

  /**
   * The beacon a block accepts is exactly the one its end-of-block assignment consumes: the round is then
   * assigned with that beacon in its metadata, unless the deadline of a due website does not fit.
   */
  lemma AcceptedBeaconConsumed(plan: Plan, c: Scene, p: Params, env: Env, beacons: map<nat, Beacon>, m: BeaconMsg)
    requires p.Valid() && PlanOk(plan, beacons, p)
    requires SubmitBeacon(beacons, p, env, c.now, plan.calendar.lastRound, m).Ok?
    ensures var r := NextRoundStart(c.now, p.roundInterval);
      var stored := SubmitBeacon(beacons, p, env, c.now, plan.calendar.lastRound, m).value;
      var after := AssignNewRound(plan, c, p, env, stored);
      && r !in plan.metas
      && (after.Ok? <==> AllStorable(RoundFor(plan, c, p, env, r, m.round, Lower(Trim(m.randomness)))))
      && (after.Ok? ==>
            && after.value.calendar.lastRound == Some(r) && r in after.value.metas
            && after.value.metas[r].drandRound == m.round
            && after.value.metas[r].randomness == Lower(Trim(m.randomness)))
  {
  }

  /** The beacon that seeds the next round: none without drand, otherwise the stored required one. */
  function SeedingBeacon(p: Params, r: int, beacons: map<nat, Beacon>): Option<(nat, string)> {
    if !p.drandEnabled then Some((0, ""))
    else
      match RequiredRound(p, r)
      case None => None
      case Some(n) => if n in beacons then Some((n, beacons[n].randomness)) else None
  }

  /** What a website's assignment in round r looks like when the round seed is seed. */
  predicate AssignedTo(c: Scene, p: Params, env: Env, seed: string, r: int, d: string, a: Assignment)
    requires p.Valid() && d in c.websites
  {
    var w, raw := c.websites[d], env.offset(seed, d);
    && a.start == r + (if p.roundInterval >= 3600 then 60 * (raw % 60) else raw % p.assignmentDelayMax)
    && a.deadline == a.start + p.submissionWindow
    && a.owner == (if w.pendingOwner == "" then w.owner else w.pendingOwner)
    && (a.reregistration <==> w.pendingOwner != "")
    && !a.finalized && a.finalizedAt == 0 && !a.verified && !a.settled
    && Elems(a.verifiers) == Elems(Panel(c, p, env, seed, d))
  }

  lemma AssignedFields(c: Scene, p: Params, env: Env, seed: string, r: int, d: string)
    requires p.Valid() && p.InRange() && d in c.websites && 0 < r <= MAX_TIME + MAX_DURATION
    requires Storable(AssignmentId(r, d), NewAssignment(c, p, env, seed, r, d))
    ensures AssignedTo(c, p, env, seed, r, d, NewAssignment(c, p, env, seed, r, d))
  {
    NewTimes(c, p, env, seed, r, d);
    PanelExact(c, p, env, seed, r, d);
  }

  /**
   * What assigning does. Without a later grid point, or without the beacon for it, nothing. Otherwise the next grid
   * point becomes the last round, with metadata; every website with a candidate, and every unrevoked one out of
   * cooldown at the round's start, gets exactly one open assignment in it; nothing else changes.
   */
  lemma RoundAssigned(plan: Plan, c: Scene, p: Params, env: Env, beacons: map<nat, Beacon>, d: string)
    requires p.Valid() && p.InRange() && 0 <= c.now <= MAX_TIME && PlanOk(plan, beacons, p)
    requires AssignNewRound(plan, c, p, env, beacons).Ok?
    ensures var r, last := NextRoundStart(c.now, p.roundInterval), plan.calendar.lastRound;
      var after, seeding := AssignNewRound(plan, c, p, env, beacons).value, SeedingBeacon(p, r, beacons);
      if (last.Some? && r <= last.value) || seeding == None then after == plan
      else
        var seed, k := env.seed(c.anchor, r, seeding.value.0, seeding.value.1), AssignmentId(r, d);
        && after.calendar.lastRound == Some(r) && after.calendar.settlements == plan.calendar.settlements
        && (k in after.calendar.docket <==>
              d in c.websites && (c.websites[d].pendingOwner != ""
                                  || (c.websites[d].status != Revoked && c.websites[d].cooldownUntil <= r)))
        && (k in after.calendar.docket ==> AssignedTo(c, p, env, seed, r, d, after.calendar.docket[k]))
        && (forall l: AssignmentId :: l.round != r ==> (l in after.calendar.docket <==> l in plan.calendar.docket))
        && (forall l :: l in plan.calendar.docket ==> l in after.calendar.docket && after.calendar.docket[l] == plan.calendar.docket[l])
        && after.metas == plan.metas[r := RoundMeta(seed, c.now, |set v | v in c.bonds && MayServe(c, v)|,
                                                    seeding.value.0, seeding.value.1)]
  {
    var r := NextRoundStart(c.now, p.roundInterval);
    NextRoundStartIsNext(c.now, p.roundInterval);
    var seeding := SeedingBeacon(p, r, beacons);
    if Opening(p, c.now, plan.calendar.lastRound) && seeding.Some? {
      InstalledRound(plan, c, p, env, r, seeding.value.0, seeding.value.1, d);
    }
  }

  lemma InstalledRound(plan: Plan, c: Scene, p: Params, env: Env, r: int, drandRound: nat, randomness: string, d: string)
    requires p.Valid() && p.InRange() && 0 < r <= MAX_TIME + MAX_DURATION
    requires r !in plan.metas && forall k :: k in plan.calendar.docket ==> k.round != r
    requires Accepts(plan, c, p, env, r, drandRound, randomness)
    ensures var seed, k := env.seed(c.anchor, r, drandRound, randomness), AssignmentId(r, d);
      var after := Install(plan, c, p, env, r, drandRound, randomness);
      && after.calendar.lastRound == Some(r) && after.calendar.settlements == plan.calendar.settlements
      && (k in after.calendar.docket <==>
            d in c.websites && (c.websites[d].pendingOwner != ""
                                || (c.websites[d].status != Revoked && c.websites[d].cooldownUntil <= r)))
      && (k in after.calendar.docket ==> AssignedTo(c, p, env, seed, r, d, after.calendar.docket[k]))
      && (forall l: AssignmentId :: l.round != r ==> (l in after.calendar.docket <==> l in plan.calendar.docket))
      && (forall l :: l in plan.calendar.docket ==> l in after.calendar.docket && after.calendar.docket[l] == plan.calendar.docket[l])
      && after.metas == plan.metas[r := RoundMeta(seed, c.now, |set v | v in c.bonds && MayServe(c, v)|, drandRound, randomness)]
  {
    var k := AssignmentId(r, d);
    assert Eligible(c) == set v | v in c.bonds && MayServe(c, v);
    assert k in NewKeys(c, plan.calendar.docket, r) <==> d in DueSites(c.websites, r);
    if d in DueSites(c.websites, r) {
      var seed := SeedFor(c, env, r, drandRound, randomness);
      assert Storable(k, RoundFor(plan, c, p, env, r, drandRound, randomness)[k]);
      AssignedFields(c, p, env, seed, r, d);
    }
  }

  /** A beacon is accepted if and only if it is the one the pending round requires, is new, well-formed and verified. */
  lemma BeaconAcceptedIff(beacons: map<nat, Beacon>, p: Params, env: Env, now: int, lastRound: Option<int>, m: BeaconMsg)
    requires p.Valid()
    ensures var r, random, signature := NextRoundStart(now, p.roundInterval), Lower(Trim(m.randomness)), Lower(Trim(m.signature));
      && (SubmitBeacon(beacons, p, env, now, lastRound, m).Ok? <==>
            && p.drandEnabled && (lastRound.Some? ==> lastRound.value < r) && RequiredRound(p, r) == Some(m.round)
            && m.round !in beacons && |random| == 64 && HexText(random) && signature != "" && HexText(signature)
            && env.beaconOk(m.round, random, signature) && now > 0 && IsAddress(Trim(m.submitter)))
      && (SubmitBeacon(beacons, p, env, now, lastRound, m).Ok? ==>
            SubmitBeacon(beacons, p, env, now, lastRound, m).value == beacons[m.round := Beacon(random, now, Trim(m.submitter))])
  {
  }
}
