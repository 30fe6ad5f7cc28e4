// The airdrop claim store and its crash-prone workers
// (cmd/congrid-site/airdrop_store.go, cmd/congrid-site/airdrop.go).
module AirdropStore {
  import opened Base

  datatype Status = Verified | Submitting | Broadcast | Confirmed | Failed | NeedsReconcile

  /** A row of airdrop_claims; txHash == "" stands for NULL. */
  datatype Claim = Claim(wallet: string, amount: string, denom: string, status: Status, txHash: string, submissions: nat)

  type Rows = map<string, Claim>

  // What each SQL statement does to the table.

  function InsertIfAbsent(rows: Rows, site: string, c: Claim): Rows {
    if site in rows then rows else rows[site := c]
  }

  predicate InStatus(rows: Rows, site: string, status: Status) {
    site in rows && rows[site].status == status
  }

  /** The partial unique index on tx_hash lets no two rows share a non-empty hash. */
  predicate HashFree(rows: Rows, site: string, txHash: string) {
    txHash == "" || forall other :: other in rows && other != site ==> rows[other].txHash != txHash
  }

  function Submit(rows: Rows, site: string): Rows
    requires InStatus(rows, site, Verified)
  {
    rows[site := rows[site].(status := Submitting, submissions := rows[site].submissions + 1)]
  }

  function Move(rows: Rows, site: string, to: Status, txHash: string): Rows
    requires site in rows
  {
    rows[site := rows[site].(status := to, txHash := if txHash != "" then txHash else rows[site].txHash)]
  }

  function Recovered(c: Claim): Claim {
    if c.status == Submitting then c.(status := NeedsReconcile) else c
  }

  function Recover(rows: Rows): Rows {
    map site | site in rows :: Recovered(rows[site])
  }

  /** sqlClaimStore: compare-and-set updates of one table. */
  class ClaimStore {
    var rows: Rows

    constructor (imported: Rows)
      ensures rows == imported
    {
      rows := imported;
    }

    /** Reserve: INSERT ... ON CONFLICT DO NOTHING, keyed by the primary domain of the requested one. */
    method Reserve(site: string, domain: string, wallet: string, amount: string, denom: string, primaryOf: string -> Option<string>)
      returns (claim: Claim, created: bool, ok: bool)
      modifies this
      ensures ok <==> primaryOf(domain) == Some(site) && wallet != "" && amount != "" && denom != ""
      ensures !ok ==> rows == old(rows) && !created
      ensures ok ==> rows == InsertIfAbsent(old(rows), site, Claim(wallet, amount, denom, Verified, "", 0))
      ensures ok ==> created == (site !in old(rows)) && site in rows && claim == rows[site]
    {
      claim, created, ok := Claim(wallet, amount, denom, Verified, "", 0), false, false;
      if primaryOf(domain) != Some(site) { return; }
      if wallet == "" || amount == "" || denom == "" { return; }
      ok := true;
      if site !in rows {
        rows := rows[site := claim];
        created := true;
      } else {
        claim := rows[site];
      }
    }

    /** MarkSubmitting: at most one caller wins the row. */
    method MarkSubmitting(site: string) returns (won: bool)
      modifies this
      ensures won == InStatus(old(rows), site, Verified)
      ensures rows == if won then Submit(old(rows), site) else old(rows)
    {
      won := site in rows && rows[site].status == Verified;
      if won {
        rows := rows[site := rows[site].(status := Submitting, submissions := rows[site].submissions + 1)];
      }
    }

    /** transition: UPDATE ... WHERE site_key = ? AND status = ?, refused by the unique index on a reused hash. */
    method Transition(site: string, from: Status, to: Status, txHash: string) returns (ok: bool)
      modifies this
      ensures ok == (InStatus(old(rows), site, from) && HashFree(old(rows), site, txHash))
      ensures rows == if ok then Move(old(rows), site, to, txHash) else old(rows)
    {
      ok := site in rows && rows[site].status == from && HashFree(rows, site, txHash);
      if ok {
        var c := rows[site];
        rows := rows[site := c.(status := to, txHash := if txHash != "" then txHash else c.txHash)];
      }
    }

    /** MarkTerminal: only failed and needs_reconcile, only from submitting. */
    method MarkTerminal(site: string, to: Status) returns (ok: bool)
      modifies this
      ensures ok == ((to == Failed || to == NeedsReconcile) && InStatus(old(rows), site, Submitting))
      ensures rows == if ok then Move(old(rows), site, to, "") else old(rows)
    {
      if to != Failed && to != NeedsReconcile { return false; }
      ok := site in rows && rows[site].status == Submitting;
      if ok { rows := rows[site := rows[site].(status := to)]; }
    }

    /** RecoverInterrupted: every submitting row becomes needs_reconcile; rows are visited in any order. */
    method RecoverInterrupted() returns (count: nat)
      modifies this
      ensures rows == Recover(old(rows))
      ensures count == |set site | site in old(rows) && old(rows)[site].status == Submitting|
    {
      count := 0;
      ghost var before := rows;
      var todo := set site | site in rows && rows[site].status == Submitting;
      ghost var all := todo;
      while todo != {}
        invariant todo <= all && rows.Keys == before.Keys
        invariant forall site :: site in before ==>
          rows[site] == if site in all - todo then before[site].(status := NeedsReconcile) else before[site]
        invariant count + |todo| == |all|
        decreases todo
      {
        var site :| site in todo;
        rows := rows[site := rows[site].(status := NeedsReconcile)];
        todo := todo - {site};
        count := count + 1;
      }
      assert rows == Recover(before);
    }
  }
}

module AirdropWorkers {
  import opened Base
  import opened AirdropStore

  /** Result of the external Broadcast call; an accepted transaction has a non-empty hash. */
  datatype Outcome = Accepted(txHash: string) | Rejected | Ambiguous

  /** What the chain says about a broadcast transaction. */
  datatype Inclusion = StillPending | Included | DeliveryFailed | TimedOut

  /** Where a worker stands inside submitOne or confirmOne. */
  datatype Pc =
    | Idle
    | Picked(site: string)                    // Next returned a verified claim
    | Claimed(site: string)                   // MarkSubmitting succeeded, Broadcast not yet called
    | Sent(site: string, outcome: Outcome)    // Broadcast returned, result not yet persisted
    | Unpersisted(site: string)               // MarkBroadcast failed, MarkTerminal still to do
    | Checking(site: string)                  // Next returned a broadcast claim

  /** Any number of workers over one table; sent counts the calls of Broadcast per site. */
  datatype World = World(rows: Rows, workers: map<nat, Pc>, sent: multiset<string>, trail: map<string, seq<Status>>)

  /** A statement can fail before or after it took effect. */
  datatype Db = Fine | LostBefore | LostAfter

  datatype Event =
    | Request(site: string, claim: Claim)
    | Start(worker: nat)
    | Crash(worker: nat)
    | PickVerified(worker: nat, site: string)
    | MarkSubmitting(worker: nat, db: Db)
    | CallBroadcast(worker: nat, outcome: Outcome)
    | PersistBroadcast(worker: nat, db: Db)
    | PersistTerminal(worker: nat, db: Db)
    | PickBroadcast(worker: nat, site: string)
    | PersistInclusion(worker: nat, inclusion: Inclusion, db: Db)

  /** Replace the table, recording every status that changed. */
  function WithRows(w: World, rows: Rows): World {
    w.(rows := rows, trail := map site | site in rows ::
      var before := if site in w.trail then w.trail[site] else [];
      if site in w.rows && w.rows[site].status == rows[site].status then before else before + [rows[site].status])
  }

  function At(w: World, worker: nat, pc: Pc): World {
    w.(workers := w.workers[worker := pc])
  }

  /** Apply an update unless the connection was lost before it. */
  function Applied(w: World, db: Db, rows: Rows): World {
    if db == LostBefore then w else WithRows(w, rows)
  }

  function Step(w: World, e: Event): World {
    match e
    case Request(site, c) =>
      if c.wallet == "" || c.amount == "" || c.denom == "" then w
      else WithRows(w, InsertIfAbsent(w.rows, site, c.(status := Verified, txHash := "", submissions := 0)))
    case Start(worker) =>
      if worker in w.workers then w else At(WithRows(w, Recover(w.rows)), worker, Idle)
    case Crash(worker) =>
      w.(workers := w.workers - {worker})
    case PickVerified(worker, site) =>
      if worker in w.workers && w.workers[worker].Idle? && InStatus(w.rows, site, Verified) then At(w, worker, Picked(site)) else w
    case MarkSubmitting(worker, db) =>
      if worker in w.workers && w.workers[worker].Picked? then
        var site := w.workers[worker].site;
        if !InStatus(w.rows, site, Verified) then At(w, worker, Idle)
        else At(Applied(w, db, Submit(w.rows, site)), worker, if db == Fine then Claimed(site) else Idle)
      else w
    case CallBroadcast(worker, outcome) =>
      if worker in w.workers && w.workers[worker].Claimed? && (outcome.Accepted? ==> outcome.txHash != "") then
        var site := w.workers[worker].site;
        At(w.(sent := w.sent + multiset{site}), worker, Sent(site, outcome))
      else w
    case PersistBroadcast(worker, db) =>
      if worker in w.workers && w.workers[worker].Sent? && w.workers[worker].outcome.Accepted? then
        var site, hash := w.workers[worker].site, w.workers[worker].outcome.txHash;
        if InStatus(w.rows, site, Submitting) && HashFree(w.rows, site, hash)
        then At(Applied(w, db, Move(w.rows, site, Broadcast, hash)), worker, if db == Fine then Idle else Unpersisted(site))
        else At(w, worker, Unpersisted(site))
      else w
    case PersistTerminal(worker, db) =>
      if worker in w.workers && (w.workers[worker].Unpersisted? || (w.workers[worker].Sent? && !w.workers[worker].outcome.Accepted?)) then
        var pc := w.workers[worker];
        var to := if pc.Sent? && pc.outcome.Rejected? then Failed else NeedsReconcile;
        if InStatus(w.rows, pc.site, Submitting)
        then At(Applied(w, db, Move(w.rows, pc.site, to, "")), worker, Idle)
        else At(w, worker, Idle)
      else w
    case PickBroadcast(worker, site) =>
      if worker in w.workers && w.workers[worker].Idle? && InStatus(w.rows, site, Broadcast) then At(w, worker, Checking(site)) else w
    case PersistInclusion(worker, inclusion, db) =>
      if worker in w.workers && w.workers[worker].Checking? then
        var site := w.workers[worker].site;
        if inclusion.StillPending? || !InStatus(w.rows, site, Broadcast) then At(w, worker, Idle)
        else At(Applied(w, db, Move(w.rows, site, Verdict(inclusion), "")), worker, Idle)
      else w
  }

  function Verdict(i: Inclusion): Status {
    match i
    case Included => Confirmed
    case DeliveryFailed => Failed
    case _ => NeedsReconcile
  }

  // Invariants.

  /** Nobody is about to broadcast for site. */
  ghost predicate NoClaimer(w: World, site: string) {
    forall k :: k in w.workers ==> w.workers[k] != Claimed(site)
  }

  /** One permit per site: it is unused while the claim is still verified and can be spent once. */
  ghost predicate PermitOnce(w: World, site: string) {
    && w.sent[site] <= 1
    && (w.sent[site] == 1 ==> NoClaimer(w, site))
    && (forall k, l :: k in w.workers && l in w.workers && w.workers[k] == w.workers[l] == Claimed(site) ==> k == l)
    && (site !in w.rows || w.rows[site].status == Verified ==> w.sent[site] == 0 && NoClaimer(w, site))
  }

  /** Which status may follow which. */
  predicate MayFollow(a: Status, b: Status) {
    match a
    case Verified => b == Submitting
    case Submitting => b == Broadcast || b == Failed || b == NeedsReconcile
    case Broadcast => b == Confirmed || b == Failed || b == NeedsReconcile
    case _ => false
  }

  /** A claim's life: it starts verified and every later status may follow the one before. */
  ghost predicate ProperLife(life: seq<Status>) {
    && life != [] && life[0] == Verified
    && forall i :: 0 <= i < |life| - 1 ==> MayFollow(life[i], life[i + 1])
  }

  ghost predicate ClaimOk(w: World, site: string)
    requires site in w.rows
  {
    && site in w.trail
    && ProperLife(w.trail[site])
    && w.trail[site][|w.trail[site]| - 1] == w.rows[site].status
    && (w.rows[site].status == Broadcast || w.rows[site].status == Confirmed ==> w.rows[site].txHash != "")
  }

  ghost predicate PcOk(pc: Pc) {
    pc.Sent? && pc.outcome.Accepted? ==> pc.outcome.txHash != ""
  }

  /** legacy is the set of imported claims, whose lives began elsewhere. */
  ghost predicate Inv(w: World, legacy: set<string>) {
    && (forall site :: PermitOnce(w, site))
    && (forall site :: site in w.rows && site !in legacy ==> ClaimOk(w, site))
    && (forall site :: site in legacy ==> InStatus(w.rows, site, Confirmed) || InStatus(w.rows, site, NeedsReconcile))
    && (forall k :: k in w.workers ==> PcOk(w.workers[k]))
  }

  // Preservation, one kind of change at a time.

  /** A claim changes only along MayFollow; a broadcast brings a hash and a confirmation keeps it. */
  predicate ClaimEvolves(a: Claim, b: Claim) {
    if a.status == b.status then a.txHash == b.txHash
    else
      && MayFollow(a.status, b.status)
      && (b.status == Broadcast ==> b.txHash != "")
      && (b.status == Confirmed ==> b.txHash == a.txHash)
  }

  ghost predicate Evolves(before: Rows, after: Rows) {
    && (forall site :: site in before ==> site in after && ClaimEvolves(before[site], after[site]))
    && (forall site :: site in after && site !in before ==> after[site].status == Verified)
  }

  lemma LifeGrows(life: seq<Status>, next: Status)
    requires ProperLife(life) && MayFollow(life[|life| - 1], next)
    ensures ProperLife(life + [next])
  {
    var longer := life + [next];
    forall i | 0 <= i < |longer| - 1
      ensures MayFollow(longer[i], longer[i + 1])
    {
      if i < |life| - 1 { assert MayFollow(life[i], life[i + 1]); }
    }
  }

  lemma ClaimSurvives(w: World, rows: Rows, site: string)
    requires Evolves(w.rows, rows) && site in rows
    requires site in w.rows ==> ClaimOk(w, site)
    requires site !in w.rows ==> site !in w.trail
    ensures ClaimOk(WithRows(w, rows), site)
  {
    if site in w.rows && w.rows[site].status != rows[site].status {
      LifeGrows(w.trail[site], rows[site].status);
    }
  }

  ghost predicate TrailsMatch(w: World) {
    forall site :: site in w.trail ==> site in w.rows
  }

  lemma RowsChange(w: World, rows: Rows, legacy: set<string>)
    requires Inv(w, legacy) && TrailsMatch(w) && Evolves(w.rows, rows)
    ensures Inv(WithRows(w, rows), legacy) && TrailsMatch(WithRows(w, rows))
  {
    var v := WithRows(w, rows);
    forall site | site in v.rows && site !in legacy
      ensures ClaimOk(v, site)
    {
      ClaimSurvives(w, rows, site);
    }
    forall site
      ensures PermitOnce(v, site)
    {
      assert PermitOnce(w, site);
    }
    forall site | site in legacy
      ensures InStatus(v.rows, site, Confirmed) || InStatus(v.rows, site, NeedsReconcile)
    {
      assert ClaimEvolves(w.rows[site], rows[site]);
    }
  }

  lemma PcChange(w: World, worker: nat, pc: Pc, legacy: set<string>)
    requires Inv(w, legacy) && PcOk(pc) && !pc.Claimed?
    ensures Inv(At(w, worker, pc), legacy)
  {
    forall site
      ensures PermitOnce(At(w, worker, pc), site)
    {
      assert PermitOnce(w, site);
    }
    forall site | site in w.rows && site !in legacy
      ensures ClaimOk(At(w, worker, pc), site)
    {
      assert ClaimOk(w, site);
    }
  }

  lemma CrashKeepsInv(w: World, worker: nat, legacy: set<string>)
    requires Inv(w, legacy)
    ensures Inv(w.(workers := w.workers - {worker}), legacy)
  {
    var v := w.(workers := w.workers - {worker});
    forall site
      ensures PermitOnce(v, site)
    {
      assert PermitOnce(w, site);
    }
    forall site | site in v.rows && site !in legacy
      ensures ClaimOk(v, site)
    {
      assert ClaimOk(w, site);
    }
  }

  /** Winning the row takes the one permit ... */
  lemma TakePermit(w: World, worker: nat, site: string, legacy: set<string>)
    requires Inv(w, legacy) && TrailsMatch(w) && InStatus(w.rows, site, Verified)
    ensures Inv(At(WithRows(w, Submit(w.rows, site)), worker, Claimed(site)), legacy)
  {
    var v := WithRows(w, Submit(w.rows, site));
    RowsChange(w, Submit(w.rows, site), legacy);
    assert PermitOnce(w, site);
    var u := At(v, worker, Claimed(site));
    forall other
      ensures PermitOnce(u, other)
    {
      assert PermitOnce(v, other);
    }
    forall other | other in u.rows && other !in legacy
      ensures ClaimOk(u, other)
    {
      assert ClaimOk(v, other);
    }
  }

  /** ... and calling Broadcast spends it. */
  lemma SpendPermit(w: World, worker: nat, outcome: Outcome, legacy: set<string>)
    requires Inv(w, legacy) && worker in w.workers && w.workers[worker].Claimed?
    requires outcome.Accepted? ==> outcome.txHash != ""
    ensures Inv(Step(w, CallBroadcast(worker, outcome)), legacy)
  {
    var site := w.workers[worker].site;
    var v := Step(w, CallBroadcast(worker, outcome));
    forall other
      ensures PermitOnce(v, other)
    {
      assert PermitOnce(w, other);
      assert PermitOnce(w, site);
    }
    forall other | other in v.rows && other !in legacy
      ensures ClaimOk(v, other)
    {
      assert ClaimOk(w, other);
    }
  }

  lemma AppliedKeepsInv(w: World, db: Db, rows: Rows, legacy: set<string>)
    requires Inv(w, legacy) && TrailsMatch(w) && Evolves(w.rows, rows)
    ensures Inv(Applied(w, db, rows), legacy) && TrailsMatch(Applied(w, db, rows))
  {
    RowsChange(w, rows, legacy);
  }

  /** Every step, of any worker in any interleaving, keeps the invariant. */
  lemma StepKeepsInv(w: World, e: Event, legacy: set<string>)
    requires Inv(w, legacy) && TrailsMatch(w)
    ensures Inv(Step(w, e), legacy) && TrailsMatch(Step(w, e))
  {
    match e {
      case Request(site, c) => RowsChange(w, InsertIfAbsent(w.rows, site, c.(status := Verified, txHash := "", submissions := 0)), legacy);
      case Start(worker) =>
        RowsChange(w, Recover(w.rows), legacy);
        PcChange(WithRows(w, Recover(w.rows)), worker, Idle, legacy);
      case Crash(worker) => CrashKeepsInv(w, worker, legacy);
      case PickVerified(worker, site) => PcChange(w, worker, Picked(site), legacy);
      case MarkSubmitting(worker, db) => SubmittingKeepsInv(w, worker, db, legacy);
      case CallBroadcast(worker, outcome) =>
        if worker in w.workers && w.workers[worker].Claimed? && (outcome.Accepted? ==> outcome.txHash != "") {
          SpendPermit(w, worker, outcome, legacy);
        }
      case PersistBroadcast(worker, db) => BroadcastKeepsInv(w, worker, db, legacy);
      case PersistTerminal(worker, db) => TerminalKeepsInv(w, worker, db, legacy);
      case PickBroadcast(worker, site) => PcChange(w, worker, Checking(site), legacy);
      case PersistInclusion(worker, inclusion, db) => InclusionKeepsInv(w, worker, inclusion, db, legacy);
    }
  }

  lemma SubmittingKeepsInv(w: World, worker: nat, db: Db, legacy: set<string>)
    requires Inv(w, legacy) && TrailsMatch(w)
    ensures Inv(Step(w, MarkSubmitting(worker, db)), legacy) && TrailsMatch(Step(w, MarkSubmitting(worker, db)))
  {
    if worker in w.workers && w.workers[worker].Picked? {
      var site := w.workers[worker].site;
      if !InStatus(w.rows, site, Verified) {
        PcChange(w, worker, Idle, legacy);
      } else if db == Fine {
        TakePermit(w, worker, site, legacy);
      } else {
        AppliedKeepsInv(w, db, Submit(w.rows, site), legacy);
        PcChange(Applied(w, db, Submit(w.rows, site)), worker, Idle, legacy);
      }
    }
  }

  lemma BroadcastKeepsInv(w: World, worker: nat, db: Db, legacy: set<string>)
    requires Inv(w, legacy) && TrailsMatch(w)
    ensures Inv(Step(w, PersistBroadcast(worker, db)), legacy) && TrailsMatch(Step(w, PersistBroadcast(worker, db)))
  {
    if worker in w.workers && w.workers[worker].Sent? && w.workers[worker].outcome.Accepted? {
      var site, hash := w.workers[worker].site, w.workers[worker].outcome.txHash;
      assert PcOk(w.workers[worker]);
      if InStatus(w.rows, site, Submitting) && HashFree(w.rows, site, hash) {
        var rows := Move(w.rows, site, Broadcast, hash);
        AppliedKeepsInv(w, db, rows, legacy);
        PcChange(Applied(w, db, rows), worker, if db == Fine then Idle else Unpersisted(site), legacy);
      } else {
        PcChange(w, worker, Unpersisted(site), legacy);
      }
    }
  }

  lemma TerminalKeepsInv(w: World, worker: nat, db: Db, legacy: set<string>)
    requires Inv(w, legacy) && TrailsMatch(w)
    ensures Inv(Step(w, PersistTerminal(worker, db)), legacy) && TrailsMatch(Step(w, PersistTerminal(worker, db)))
  {
    if worker in w.workers && (w.workers[worker].Unpersisted? || (w.workers[worker].Sent? && !w.workers[worker].outcome.Accepted?)) {
      var pc := w.workers[worker];
      var to := if pc.Sent? && pc.outcome.Rejected? then Failed else NeedsReconcile;
      if InStatus(w.rows, pc.site, Submitting) {
        AppliedKeepsInv(w, db, Move(w.rows, pc.site, to, ""), legacy);
        PcChange(Applied(w, db, Move(w.rows, pc.site, to, "")), worker, Idle, legacy);
      } else {
        PcChange(w, worker, Idle, legacy);
      }
    }
  }

  lemma InclusionKeepsInv(w: World, worker: nat, inclusion: Inclusion, db: Db, legacy: set<string>)
    requires Inv(w, legacy) && TrailsMatch(w)
    ensures Inv(Step(w, PersistInclusion(worker, inclusion, db)), legacy) && TrailsMatch(Step(w, PersistInclusion(worker, inclusion, db)))
  {
    if worker in w.workers && w.workers[worker].Checking? {
      var site := w.workers[worker].site;
      if inclusion.StillPending? || !InStatus(w.rows, site, Broadcast) {
        PcChange(w, worker, Idle, legacy);
      } else {
        AppliedKeepsInv(w, db, Move(w.rows, site, Verdict(inclusion), ""), legacy);
        PcChange(Applied(w, db, Move(w.rows, site, Verdict(inclusion), "")), worker, Idle, legacy);
      }
    }
  }

  // Whole runs.

  function Run(w: World, events: seq<Event>): World {
    if events == [] then w else Step(Run(w, events[..|events| - 1]), events[|events| - 1])
  }

  /** The table as opened: imported claims only, each confirmed with its hash or set aside. */
  ghost predicate Imported(rows: Rows) {
    forall site :: site in rows ==>
      (rows[site].status == Confirmed && rows[site].txHash != "") || rows[site].status == NeedsReconcile
  }

  function Opened(rows: Rows): World {
    World(rows, map[], multiset{}, map site | site in rows :: [])
  }

  lemma {:induction false} RunKeepsInv(rows: Rows, events: seq<Event>)
    requires Imported(rows)
    ensures Inv(Run(Opened(rows), events), rows.Keys) && TrailsMatch(Run(Opened(rows), events))
  {
    if events != [] {
      RunKeepsInv(rows, events[..|events| - 1]);
      StepKeepsInv(Run(Opened(rows), events[..|events| - 1]), events[|events| - 1], rows.Keys);
    }
  }

  /** Imported claims are never submitted: nobody holds a permit for them and nothing was sent. */
  ghost predicate LegacyQuiet(w: World, legacy: set<string>) {
    forall site :: site in legacy ==> w.sent[site] == 0 && NoClaimer(w, site)
  }

  lemma StepKeepsQuiet(w: World, e: Event, legacy: set<string>)
    requires Inv(w, legacy) && LegacyQuiet(w, legacy)
    ensures LegacyQuiet(Step(w, e), legacy)
  {
    forall site | site in legacy
      ensures Step(w, e).sent[site] == 0 && NoClaimer(Step(w, e), site)
    {
      StepStaysQuiet(w, e, site);
    }
  }

  lemma StepStaysQuiet(w: World, e: Event, site: string)
    requires !InStatus(w.rows, site, Verified) && w.sent[site] == 0 && NoClaimer(w, site)
    ensures Step(w, e).sent[site] == 0 && NoClaimer(Step(w, e), site)
  {
  }

  lemma {:induction false} RunKeepsQuiet(rows: Rows, events: seq<Event>)
    requires Imported(rows)
    ensures LegacyQuiet(Run(Opened(rows), events), rows.Keys)
  {
    if events != [] {
      var before := events[..|events| - 1];
      RunKeepsInv(rows, before);
      RunKeepsQuiet(rows, before);
      StepKeepsQuiet(Run(Opened(rows), before), events[|events| - 1], rows.Keys);
    }
  }

  /**
   * At most once: over every interleaving of requests, workers, crashes, restarts and lost database
   * replies, Broadcast is called at most once per site, and never for an imported one.
   */
  lemma AtMostOneBroadcast(rows: Rows, events: seq<Event>, site: string)
    requires Imported(rows)
    ensures Run(Opened(rows), events).sent[site] <= 1
    ensures site in rows ==> Run(Opened(rows), events).sent[site] == 0
    ensures site !in Run(Opened(rows), events).rows || Run(Opened(rows), events).rows[site].status == Verified ==>
      Run(Opened(rows), events).sent[site] == 0
  {
    RunKeepsInv(rows, events);
    RunKeepsQuiet(rows, events);
    assert PermitOnce(Run(Opened(rows), events), site);
  }

  lemma LifeReachesConfirmed(life: seq<Status>)
    requires ProperLife(life) && life[|life| - 1] == Confirmed
    ensures |life| == 4 && life == [Verified, Submitting, Broadcast, Confirmed]
  {
    var n := |life| - 1;
    assert n >= 1 && MayFollow(life[n - 1], life[n]);
    assert n >= 2 && MayFollow(life[n - 2], life[n - 1]);
    assert n >= 3 && MayFollow(life[n - 3], life[n - 2]);
    assert n == 3 || MayFollow(life[n - 4], life[n - 3]);
  }

  /**
   * A claim made through the site is confirmed only after the full life verified, submitting, broadcast,
   * confirmed, with a transaction hash; and after leaving verified it never returns there.
   */
  lemma ConfirmedThroughBroadcast(rows: Rows, events: seq<Event>, site: string)
    requires Imported(rows) && site !in rows && site in Run(Opened(rows), events).rows
    ensures site in Run(Opened(rows), events).trail
    ensures var w := Run(Opened(rows), events);
      && (w.rows[site].status == Confirmed ==>
            w.rows[site].txHash != "" && w.trail[site] == [Verified, Submitting, Broadcast, Confirmed])
      && forall i :: 0 < i < |w.trail[site]| ==> w.trail[site][i] != Verified
  {
    RunKeepsInv(rows, events);
    var w := Run(Opened(rows), events);
    assert ClaimOk(w, site);
    forall i | 0 < i < |w.trail[site]|
      ensures w.trail[site][i] != Verified
    {
      assert MayFollow(w.trail[site][i - 1], w.trail[site][i]);
    }
    if w.rows[site].status == Confirmed { LifeReachesConfirmed(w.trail[site]); }
  }

  // What a step records.

  predicate MayPersist(w: World, worker: nat, site: string, from: Status) {
    worker in w.workers && InStatus(w.rows, site, from)
  }

  /** A submission, or a restart, moves exactly the claims it should. */
  lemma SubmissionRecorded(w: World, worker: nat, site: string)
    requires MayPersist(w, worker, site, Verified) && w.workers[worker] == Picked(site)
    ensures var v := Step(w, MarkSubmitting(worker, Fine));
      && v.rows == w.rows[site := w.rows[site].(status := Submitting, submissions := w.rows[site].submissions + 1)]
      && v.workers == w.workers[worker := Claimed(site)] && v.sent == w.sent
  {
  }

  /** An accepted broadcast is recorded with its hash; a rejected one as failed; an ambiguous one is left to reconcile. */
  lemma BroadcastRecorded(w: World, worker: nat, site: string, outcome: Outcome)
    requires MayPersist(w, worker, site, Submitting) && w.workers[worker] == Sent(site, outcome)
    requires outcome.Accepted? ==> HashFree(w.rows, site, outcome.txHash) && outcome.txHash != ""
    ensures var v := Step(w, if outcome.Accepted? then PersistBroadcast(worker, Fine) else PersistTerminal(worker, Fine));
      && v.workers == w.workers[worker := Idle]
      && v.rows == w.rows[site :=
           match outcome
           case Accepted(hash) => w.rows[site].(status := Broadcast, txHash := hash)
           case Rejected => w.rows[site].(status := Failed)
           case Ambiguous => w.rows[site].(status := NeedsReconcile)]
  {
  }

  /** An included transaction confirms the claim, a failed one fails it, and one that times out is left to reconcile. */
  lemma InclusionRecorded(w: World, worker: nat, site: string, inclusion: Inclusion)
    requires MayPersist(w, worker, site, Broadcast) && w.workers[worker] == Checking(site)
    ensures var v := Step(w, PersistInclusion(worker, inclusion, Fine));
      && v.workers == w.workers[worker := Idle]
      && v.rows == match inclusion
                   case StillPending => w.rows
                   case Included => w.rows[site := w.rows[site].(status := Confirmed)]
                   case DeliveryFailed => w.rows[site := w.rows[site].(status := Failed)]
                   case TimedOut => w.rows[site := w.rows[site].(status := NeedsReconcile)]
  {
  }

  /** A worker that starts leaves every interrupted submission to reconcile and touches no other claim. */
  lemma RestartRecorded(w: World, worker: nat, site: string)
    requires worker !in w.workers
    ensures var v := Step(w, Start(worker));
      && v.workers == w.workers[worker := Idle] && v.rows.Keys == w.rows.Keys
      && (site in w.rows ==>
            v.rows[site] == if w.rows[site].status == Submitting then w.rows[site].(status := NeedsReconcile) else w.rows[site])
  {
  }

  /** A request with wallet, amount and denomination reserves a verified claim, once per site. */
  lemma RequestRecorded(w: World, site: string, c: Claim)
    ensures Step(w, Request(site, c)).rows
         == if c.wallet == "" || c.amount == "" || c.denom == "" || site in w.rows then w.rows
            else w.rows[site := Claim(c.wallet, c.amount, c.denom, Verified, "", 0)]
  {
  }
}
