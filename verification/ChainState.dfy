// The state of the registry, verifiers and tokenomics modules, with the history the invariants speak about.
module ChainState {
  import opened Base
  import opened Orders
  import opened Text
  import opened Bank
  import opened PublisherParams
  import opened Tally
  import opened StoreKeys
  import C = CommitHash

  const REWARD_DENOM := "ucongrid"

  datatype SiteStatus = Pending | Verified | Revoked

  /** x/registry/types.go, Website; "" in pendingOwner means that no re-registration is pending. */
  datatype Website = Website(
    owner: string,
    status: SiteStatus,
    referrer: string,
    registeredAt: int,
    cooldownUntil: int,
    cooldownCount: int,
    pendingOwner: string,
    pendingReferrer: string)

  const SLOT_UNSPECIFIED := 0
  const SLOT_LISTED := 1
  const SLOT_PAUSED := 2

  datatype Slot = Slot(
    publisher: string,
    domain: string,
    denom: string,
    rate: nat,
    unit: int,
    minDuration: int,
    maxDuration: int,
    status: int)

  datatype LeaseStatus = Active | Completed | Violated

  datatype Lease = Lease(
    slotId: string,
    publisher: string,
    lessee: string,
    starts: int,
    ends: int,
    denom: string,
    total: nat,
    remaining: nat,
    paidOut: nat,
    status: LeaseStatus,
    updatedAt: int,
    paidThrough: int)

  /** x/registry/verification.go, PublisherVerificationAssignment. */
  datatype Assignment = Assignment(
    start: int,
    deadline: int,
    verifiers: seq<string>,
    finalized: bool,
    finalizedAt: int,
    verified: bool,
    settled: bool,
    owner: string,
    reregistration: bool)

  datatype Penalty = Penalty(count: int, until: int)
  datatype Beacon = Beacon(randomness: string, at: int, submitter: string)
  datatype RoundMeta = RoundMeta(seed: string, createdAt: int, panelSize: nat, drandRound: nat, randomness: string)
  datatype BondParams = BondParams(denom: string, minBond: nat)

  // History variables: what happened, for the invariants; no step reads them.

  datatype CommitRecord = CommitRecord(at: int, hash: string)
  datatype RevealRecord = RevealRecord(at: int, message: C.Reveal)

  datatype History = History(
    gifts: Ledger,                              // outside deposits into module accounts
    stranded: nat,                              // bond remainders dropped with their record
    commitLog: map<VoteId, CommitRecord>,
    revealLog: map<VoteId, RevealRecord>,
    tallies: map<AssignmentId, Stats>,          // the count at finalization
    settlements: seq<int>,                      // rounds paid out, in order
    paid: nat,                                  // rewards sent to users
    burned: nat)                                // rewards burned

  datatype State = State(
    now: int,
    height: int,
    params: Params,
    bondParams: BondParams,
    bank: Ledger,
    websites: map<string, Website>,
    primary: map<string, string>,
    streaks: map<string, int>,
    slots: map<string, Slot>,
    leases: map<string, Lease>,
    slotSeq: nat,
    leaseSeq: nat,
    assignments: map<AssignmentId, Assignment>,
    unsettled: set<int>,
    lastRound: Option<int>,
    metas: map<int, RoundMeta>,
    beacons: map<nat, Beacon>,
    commits: map<VoteId, string>,
    submissions: map<VoteId, Submission>,
    penalties: map<string, Penalty>,
    bonds: map<string, nat>,
    funded: nat,
    log: History)

  /** Code the chain calls but does not define: hashing, parsing, signature checks. */
  datatype Env = Env(
    sha: string -> string,
    validDomain: string -> bool,
    primaryOf: string -> string,
    validUrl: string -> bool,
    beaconOk: (nat, string, string) -> bool,
    seed: (string, int, nat, string) -> string,
    offset: (string, string) -> nat,
    digest: (string, string, nat) -> nat)

  datatype Error =
    | Invalid
    | NotFound
    | Unauthorized
    | WrongWindow
    | Duplicate
    | CommitMismatch
    | PublisherNotVerified
    | InCooldown
    | Overlap
    | InsufficientFunds
    | CooldownOverflow
    | SlotMissing
    | WebsiteMissing
    | PartiallySettled
    | BadEmission
    | NilAmount
    | DrandUnavailable

  // Identifiers.

  function Padded(n: nat): string {
    var d := DecimalNat(n);
    if |d| >= 6 then d else Zeros(6 - |d|) + d
  }

  function Zeros(n: nat): (r: string)
    ensures |r| == n && forall i :: 0 <= i < n ==> r[i] == '0'
  {
    if n == 0 then "" else "0" + Zeros(n - 1)
  }

  /** fmt.Sprintf("slot-%06d") and fmt.Sprintf("lease-%06d"). */
  function SlotId(n: nat): string {
    "slot-" + Padded(n)
  }

  function LeaseId(n: nat): string {
    "lease-" + Padded(n)
  }

  /** Numeric value of a digit string. */
  function Reading(s: string): int {
    if s == "" then 0 else 10 * Reading(s[..|s| - 1]) + (s[|s| - 1] as int - '0' as int)
  }

  lemma {:induction false} ReadingDecimal(n: nat)
    ensures Reading(DecimalNat(n)) == n
  {
    if n >= 10 {
      ReadingDecimal(n / 10);
      assert DecimalNat(n)[..|DecimalNat(n)| - 1] == DecimalNat(n / 10);
    }
  }

  lemma {:induction false} ReadingZeros(k: nat, s: string)
    ensures Reading(Zeros(k) + s) == Reading(s)
  {
    if s == "" {
      assert Zeros(k) + s == Zeros(k);
      if k > 0 {
        assert Zeros(k)[..k - 1] == Zeros(k - 1) + "";
        ReadingZeros(k - 1, "");
      }
    } else {
      var n := |s| - 1;
      assert (Zeros(k) + s)[..k + n] == Zeros(k) + s[..n];
      ReadingZeros(k, s[..n]);
    }
  }

  lemma ReadingPadded(n: nat)
    ensures Reading(Padded(n)) == n
  {
    ReadingDecimal(n);
    if |DecimalNat(n)| < 6 { ReadingZeros(6 - |DecimalNat(n)|, DecimalNat(n)); }
  }

  /** Padded sequence numbers stay distinct, also beyond six digits. */
  lemma IdsInjective(m: nat, n: nat)
    ensures SlotId(m) == SlotId(n) ==> m == n
    ensures LeaseId(m) == LeaseId(n) ==> m == n
  {
    ReadingPadded(m);
    ReadingPadded(n);
    assert SlotId(m)[5..] == Padded(m) && SlotId(n)[5..] == Padded(n);
    assert LeaseId(m)[6..] == Padded(m) && LeaseId(n)[6..] == Padded(n);
  }

  lemma PaddedDigits(n: nat)
    ensures |Padded(n)| >= 6 && forall i :: 0 <= i < |Padded(n)| ==> '0' <= Padded(n)[i] <= '9'
  {
  }

  /** An id is its prefix and a decimal number of at least six digits whose value is the sequence number. */
  lemma IdsReadable(n: nat) returns (digits: string)
    ensures SlotId(n) == "slot-" + digits && LeaseId(n) == "lease-" + digits
    ensures |digits| >= 6 && Reading(digits) == n && forall i :: 0 <= i < |digits| ==> '0' <= digits[i] <= '9'
  {
    digits := Padded(n);
    ReadingPadded(n);
    PaddedDigits(n);
  }

  // Iteration.

  predicate AssignmentLe(a: AssignmentId, b: AssignmentId) {
    a.round < b.round || (a.round == b.round && LexLe(a.domain, b.domain))
  }

  lemma AssignmentOrder()
    ensures TotalOrder(AssignmentLe)
  {
    LexOrder();
  }

  /** The assignments in store order. */
  function SortedAssignments(s: set<AssignmentId>): (xs: seq<AssignmentId>)
    ensures Enumerates(xs, s)
    ensures Ascending(xs, AssignmentLe)
  {
    AssignmentOrder();
    SortedBy(s, AssignmentLe)
  }

  function Voters(submissions: map<VoteId, Submission>, k: AssignmentId): set<string> {
    set v | v in submissions && v.round == k.round && v.domain == k.domain :: v.verifier
  }

  function ListFor(submissions: map<VoteId, Submission>, k: AssignmentId, voters: seq<string>): (r: seq<Submission>)
    requires forall i :: 0 <= i < |voters| ==> VoteId(k.round, k.domain, voters[i]) in submissions
    ensures |r| == |voters|
    ensures forall i :: 0 <= i < |voters| ==> r[i] == submissions[VoteId(k.round, k.domain, voters[i])]
  {
    if voters == [] then []
    else
      var n := |voters| - 1;
      ListFor(submissions, k, voters[..n]) + [submissions[VoteId(k.round, k.domain, voters[n])]]
  }

  lemma VotersHaveVotes(submissions: map<VoteId, Submission>, k: AssignmentId)
    ensures var voters := SortedStrings(Voters(submissions, k));
      forall i :: 0 <= i < |voters| ==> VoteId(k.round, k.domain, voters[i]) in submissions
  {
    var voters := SortedStrings(Voters(submissions, k));
    forall i | 0 <= i < |voters|
      ensures VoteId(k.round, k.domain, voters[i]) in submissions
    {
      assert voters[i] in voters;
      assert voters[i] in Voters(submissions, k);
    }
  }

  /** ListSubmissions: the reveals of one assignment in key order. */
  function ListSubmissions(submissions: map<VoteId, Submission>, k: AssignmentId): (r: seq<Submission>)
    ensures |r| == |Voters(submissions, k)|
  {
    VotersHaveVotes(submissions, k);
    EnumerationLength(SortedStrings(Voters(submissions, k)), Voters(submissions, k));
    ListFor(submissions, k, SortedStrings(Voters(submissions, k)))
  }

  /** The listing holds each voter's submission exactly once, in the order of the voters' addresses. */
  lemma ListedOnce(submissions: map<VoteId, Submission>, k: AssignmentId)
    ensures var voters, r := SortedStrings(Voters(submissions, k)), ListSubmissions(submissions, k);
      && |r| == |voters| && NoDup(voters) && Ascending(voters, LexLe)
      && (forall v :: v in voters <==> VoteId(k.round, k.domain, v) in submissions)
      && (forall i :: 0 <= i < |r| ==>
            VoteId(k.round, k.domain, voters[i]) in submissions && r[i] == submissions[VoteId(k.round, k.domain, voters[i])])
  {
    VotersHaveVotes(submissions, k);
    var voters := SortedStrings(Voters(submissions, k));
    EnumerationLength(voters, Voters(submissions, k));
    forall v
      ensures v in voters <==> VoteId(k.round, k.domain, v) in submissions
    {
      assert v in Voters(submissions, k) <==> VoteId(k.round, k.domain, v) in submissions;
    }
  }

  /** The count of an assignment's reveals. */
  function TallyOf(submissions: map<VoteId, Submission>, k: AssignmentId, a: Assignment): Stats {
    Compute(|a.verifiers|, ListSubmissions(submissions, k))
  }

  predicate HasQuorum(t: Stats) {
    t.quorum > 0 && t.passes + t.fails >= t.quorum
  }

  predicate MajorityPass(t: Stats) {
    HasQuorum(t) && t.passes > t.fails
  }

  // What the count means in votes.

  /** The verifiers that revealed a pass for assignment k. */
  function PassingVoters(submissions: map<VoteId, Submission>, k: AssignmentId): set<string> {
    set v | v in submissions && v.round == k.round && v.domain == k.domain && submissions[v].passed :: v.verifier
  }

  /** The names whose listed submission is a pass. */
  ghost function PassNames(names: seq<string>, list: seq<Submission>): set<string>
    requires |names| == |list|
  {
    if names == [] then {}
    else
      var n := |names| - 1;
      PassNames(names[..n], list[..n]) + (if list[n].passed then {names[n]} else {})
  }

  lemma {:induction false} PassNamesMembers(names: seq<string>, list: seq<Submission>, v: string)
    requires |names| == |list|
    ensures v in PassNames(names, list) <==> exists i :: 0 <= i < |names| && names[i] == v && list[i].passed
  {
    if names != [] {
      var n := |names| - 1;
      PassNamesMembers(names[..n], list[..n], v);
      if v in PassNames(names[..n], list[..n]) {
        var i :| 0 <= i < n && names[..n][i] == v && list[..n][i].passed;
        assert names[i] == v && list[i].passed;
      }
      if i :| 0 <= i < n && names[i] == v && list[i].passed { assert names[..n][i] == v && list[..n][i].passed; }
    }
  }

  lemma {:induction false} PassNamesSize(names: seq<string>, list: seq<Submission>)
    requires |names| == |list| && NoDup(names)
    ensures |PassNames(names, list)| == Passes(list)
  {
    if names != [] {
      var n := |names| - 1;
      PassNamesSize(names[..n], list[..n]);
      PassNamesMembers(names[..n], list[..n], names[n]);
    }
  }

  /**
   * In votes: the panel has a quorum when at least half of it revealed, and passes the website when, besides, more than
   * half of the reveals are passes.
   */
  lemma TallyMeaning(submissions: map<VoteId, Submission>, k: AssignmentId, a: Assignment)
    ensures var t, voters, passing := TallyOf(submissions, k, a), Voters(submissions, k), PassingVoters(submissions, k);
      && t.passes == |passing| && t.passes + t.fails == |voters|
      && (HasQuorum(t) <==> 0 < |a.verifiers| <= 2 * |voters|)
      && (MajorityPass(t) <==> 0 < |a.verifiers| <= 2 * |voters| && |voters| < 2 * |passing|)
  {
    var voters := SortedStrings(Voters(submissions, k));
    VotersHaveVotes(submissions, k);
    EnumerationLength(voters, Voters(submissions, k));
    PassingListed(submissions, k, voters);
    PassNamesSize(voters, ListSubmissions(submissions, k));
  }

  lemma PassingListed(submissions: map<VoteId, Submission>, k: AssignmentId, voters: seq<string>)
    requires voters == SortedStrings(Voters(submissions, k)) && |voters| == |ListSubmissions(submissions, k)|
    ensures PassNames(voters, ListSubmissions(submissions, k)) == PassingVoters(submissions, k)
  {
    ListedOnce(submissions, k);
    var list := ListSubmissions(submissions, k);
    forall v
      ensures v in PassNames(voters, list) <==> v in PassingVoters(submissions, k)
    {
      PassNamesMembers(voters, list, v);
      var id := VoteId(k.round, k.domain, v);
      assert v in PassingVoters(submissions, k) <==> id in submissions && submissions[id].passed;
      if id in submissions {
        var i :| 0 <= i < |voters| && voters[i] == v;
        assert list[i] == submissions[id];
      }
    }
  }
}
