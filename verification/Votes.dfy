// Commit and reveal (x/registry/msg_server.go, SubmitVerificationCommit and RevealVerification).
module Votes {
  import opened Base
  import opened Orders
  import opened Text
  import opened Domains
  import opened PublisherParams
  import opened Tally
  import opened StoreKeys
  import opened ChainState
  import C = CommitHash

  datatype CommitMsg = CommitMsg(verifier: string, domain: string, round: int, hash: string)

  /** The vote stores, and the history of what was committed and revealed when. */
  datatype Ballots = Ballots(
    commits: map<VoteId, string>,
    submissions: map<VoteId, Submission>,
    commitLog: map<VoteId, CommitRecord>,
    revealLog: map<VoteId, RevealRecord>)

  type Docket = map<AssignmentId, Assignment>

  predicate HexText(s: string) {
    forall i :: 0 <= i < |s| ==> '0' <= s[i] <= '9' || 'a' <= LowerChar(s[i]) <= 'f'
  }

  predicate ValidCommit(m: CommitMsg) {
    IsAddress(m.verifier) && Trim(m.domain) != "" && m.round > 0 && |Trim(m.hash)| == 64 && HexText(Trim(m.hash))
  }

  function CommitDeadline(a: Assignment, p: Params): int {
    a.start + p.commitWindow
  }

  function SubmitCommit(b: Ballots, docket: Docket, p: Params, now: int, m: CommitMsg): Result<Ballots, Error> {
    var k := AssignmentId(m.round, C.Normalize(m.domain));
    var v := VoteId(m.round, C.Normalize(m.domain), m.verifier);
    if !ValidCommit(m) then Err(Invalid)
    else if k !in docket then Err(NotFound)
    else if docket[k].finalized then Err(WrongWindow)
    else if m.verifier !in docket[k].verifiers then Err(Unauthorized)
    else if now < docket[k].start || now > CommitDeadline(docket[k], p) then Err(WrongWindow)
    else if v in b.commits || v in b.submissions then Err(Duplicate)
    else
      var hash := Lower(Trim(m.hash));
      Ok(AddCommit(b, v, CommitRecord(now, hash)))
  }

  function VoteOf(m: C.Reveal): VoteId {
    VoteId(m.round, C.Normalize(m.domain), m.verifier)
  }

  function SubmissionOf(m: C.Reveal, at: int): Submission {
    Submission(m.verifier, m.passed, at, m.observed, m.matched, m.expected,
               Lower(Trim(m.expectedHash)), Lower(Trim(m.observedHash)))
  }

  function RevealVote(b: Ballots, docket: Docket, p: Params, env: Env, now: int, m: C.Reveal): Result<Ballots, Error> {
    var k := AssignmentId(m.round, C.Normalize(m.domain));
    var v := VoteOf(m);
    if !m.Valid(env.sha) then Err(Invalid)
    else if k !in docket then Err(NotFound)
    else if docket[k].finalized then Err(WrongWindow)
    else if m.verifier !in docket[k].verifiers then Err(Unauthorized)
    else if now <= CommitDeadline(docket[k], p) || now > docket[k].deadline then Err(WrongWindow)
    else if v in b.submissions then Err(Duplicate)
    else if v !in b.commits then Err(NotFound)
    else if !m.Opens(env.sha, docket[k].owner, b.commits[v]) then Err(CommitMismatch)
    else if now <= 0 then Err(Invalid)
    else Ok(AddReveal(b, v, SubmissionOf(m, now), RevealRecord(now, m)))
  }

  // What every stored vote means.

  predicate CommitOk(docket: Docket, p: Params, v: VoteId, c: CommitRecord) {
    var k := AssignmentId(v.round, v.domain);
    && k in docket
    && v.verifier in docket[k].verifiers
    && docket[k].start <= c.at <= CommitDeadline(docket[k], p)
  }

  /** Revealed by the assigned verifier, in the reveal window, against the commit recorded earlier. */
  predicate RevealOk(docket: Docket, p: Params, env: Env, v: VoteId, c: CommitRecord, r: RevealRecord, s: Submission) {
    var k := AssignmentId(v.round, v.domain);
    && k in docket
    && VoteOf(r.message) == v && r.message.Valid(env.sha)
    && CommitDeadline(docket[k], p) < r.at <= docket[k].deadline
    && r.message.Opens(env.sha, docket[k].owner, c.hash)
    && s == SubmissionOf(r.message, r.at)
  }

  /** Every vote is logged; a vote is either committed or revealed. */
  ghost predicate LogsMatch(b: Ballots) {
    && b.commitLog.Keys == b.commits.Keys + b.submissions.Keys
    && b.commits.Keys !! b.submissions.Keys
    && b.revealLog.Keys == b.submissions.Keys
    && (forall v :: v in b.commits ==> b.commits[v] == b.commitLog[v].hash)
  }

  ghost predicate RevealsOk(b: Ballots, docket: Docket, p: Params, env: Env)
    requires LogsMatch(b)
  {
    forall v :: v in b.submissions ==> RevealOk(docket, p, env, v, b.commitLog[v], b.revealLog[v], b.submissions[v])
  }

  ghost predicate VotesOk(b: Ballots, docket: Docket, p: Params, env: Env) {
    && LogsMatch(b)
    && (forall v :: v in b.commitLog ==> CommitOk(docket, p, v, b.commitLog[v]))
    && RevealsOk(b, docket, p, env)
  }

  function AddCommit(b: Ballots, v: VoteId, c: CommitRecord): Ballots {
    b.(commits := b.commits[v := c.hash], commitLog := b.commitLog[v := c])
  }

  function AddReveal(b: Ballots, v: VoteId, s: Submission, r: RevealRecord): Ballots {
    Ballots(b.commits - {v}, b.submissions[v := s], b.commitLog, b.revealLog[v := r])
  }

  lemma AddCommitMatches(b: Ballots, v: VoteId, c: CommitRecord)
    requires LogsMatch(b) && v !in b.commits && v !in b.submissions
    ensures LogsMatch(AddCommit(b, v, c))
  {
  }

  lemma AddCommitKeeps(b: Ballots, docket: Docket, p: Params, env: Env, v: VoteId, c: CommitRecord)
    requires VotesOk(b, docket, p, env) && v !in b.commits && v !in b.submissions && CommitOk(docket, p, v, c)
    ensures VotesOk(AddCommit(b, v, c), docket, p, env)
  {
    var t := AddCommit(b, v, c);
    AddCommitMatches(b, v, c);
    forall u | u in t.submissions
      ensures RevealOk(docket, p, env, u, t.commitLog[u], t.revealLog[u], t.submissions[u])
    {
      assert RevealOk(docket, p, env, u, b.commitLog[u], b.revealLog[u], b.submissions[u]);
    }
  }

  lemma AddRevealMatches(b: Ballots, v: VoteId, s: Submission, r: RevealRecord)
    requires LogsMatch(b) && v in b.commits
    ensures LogsMatch(AddReveal(b, v, s, r))
  {
  }

  lemma AddRevealKeeps(b: Ballots, docket: Docket, p: Params, env: Env, v: VoteId, s: Submission, r: RevealRecord)
    requires VotesOk(b, docket, p, env) && v in b.commits
    requires RevealOk(docket, p, env, v, b.commitLog[v], r, s)
    ensures VotesOk(AddReveal(b, v, s, r), docket, p, env)
  {
    var t := AddReveal(b, v, s, r);
    AddRevealMatches(b, v, s, r);
    forall u | u in t.submissions
      ensures RevealOk(docket, p, env, u, t.commitLog[u], t.revealLog[u], t.submissions[u])
    {
      assert u != v ==> RevealOk(docket, p, env, u, b.commitLog[u], b.revealLog[u], b.submissions[u]);
    }
  }

  lemma SubmitCommitKeeps(b: Ballots, docket: Docket, p: Params, env: Env, now: int, m: CommitMsg)
    requires VotesOk(b, docket, p, env) && SubmitCommit(b, docket, p, now, m).Ok?
    ensures VotesOk(SubmitCommit(b, docket, p, now, m).value, docket, p, env)
  {
    AddCommitKeeps(b, docket, p, env, VoteId(m.round, C.Normalize(m.domain), m.verifier), CommitRecord(now, Lower(Trim(m.hash))));
  }

  lemma SubmitCommitFrame(b: Ballots, docket: Docket, p: Params, now: int, m: CommitMsg)
    requires SubmitCommit(b, docket, p, now, m).Ok?
    ensures SubmitCommit(b, docket, p, now, m).value.submissions == b.submissions
    ensures SubmitCommit(b, docket, p, now, m).value.revealLog == b.revealLog
  {
  }

  lemma RevealVoteKeeps(b: Ballots, docket: Docket, p: Params, env: Env, now: int, m: C.Reveal)
    requires VotesOk(b, docket, p, env) && RevealVote(b, docket, p, env, now, m).Ok?
    ensures VotesOk(RevealVote(b, docket, p, env, now, m).value, docket, p, env)
  {
    AddRevealKeeps(b, docket, p, env, VoteOf(m), SubmissionOf(m, now), RevealRecord(now, m));
  }

  /** The parts of an assignment that votes depend on. */
  predicate SameDuty(a: Assignment, b: Assignment) {
    a.start == b.start && a.deadline == b.deadline && a.verifiers == b.verifiers && a.owner == b.owner
  }

  ghost predicate DutiesKept(docket: Docket, after: Docket) {
    forall k :: k in docket ==> k in after && SameDuty(docket[k], after[k])
  }

  lemma VotesOkFrame(b: Ballots, docket: Docket, after: Docket, p: Params, env: Env)
    requires VotesOk(b, docket, p, env) && DutiesKept(docket, after)
    ensures VotesOk(b, after, p, env)
  {
    forall v | v in b.submissions
      ensures RevealOk(after, p, env, v, b.commitLog[v], b.revealLog[v], b.submissions[v])
    {
      assert RevealOk(docket, p, env, v, b.commitLog[v], b.revealLog[v], b.submissions[v]);
    }
  }

  /** At most one submission per assigned verifier. */
  lemma PanelBound(b: Ballots, docket: Docket, p: Params, env: Env, k: AssignmentId)
    requires VotesOk(b, docket, p, env) && k in docket
    ensures Voters(b.submissions, k) <= Elems(docket[k].verifiers)
    ensures |ListSubmissions(b.submissions, k)| <= |Elems(docket[k].verifiers)|
  {
    forall x | x in Voters(b.submissions, k)
      ensures x in Elems(docket[k].verifiers)
    {
      var v := VoteId(k.round, k.domain, x);
      assert v in b.commitLog && CommitOk(docket, p, v, b.commitLog[v]);
    }
    SubsetSize(Voters(b.submissions, k), Elems(docket[k].verifiers));
  }

  lemma SubsetSize<T>(a: set<T>, b: set<T>)
    requires a <= b
    ensures |a| <= |b|
  {
    assert b == a + (b - a);
  }

  // Vote freezing.

  /** A vote for another assignment leaves this one's submissions alone. */
  lemma OtherVotesUnseen(submissions: map<VoteId, Submission>, v: VoteId, s: Submission, k: AssignmentId)
    requires AssignmentId(v.round, v.domain) != k
    ensures ListSubmissions(submissions[v := s], k) == ListSubmissions(submissions, k)
  {
    assert Voters(submissions[v := s], k) == Voters(submissions, k);
    VotersHaveVotes(submissions, k);
  }

  /** Once an assignment is finalized no reveal changes its submissions. */
  lemma FinalizedVotesFrozen(b: Ballots, docket: Docket, p: Params, env: Env, now: int, m: C.Reveal, k: AssignmentId)
    requires RevealVote(b, docket, p, env, now, m).Ok? && k in docket && docket[k].finalized
    ensures ListSubmissions(RevealVote(b, docket, p, env, now, m).value.submissions, k) == ListSubmissions(b.submissions, k)
  {
    RevealAdds(b, docket, p, env, now, m);
    OtherVotesUnseen(b.submissions, VoteOf(m), SubmissionOf(m, now), k);
  }

  /** A reveal adds one submission, to an assignment that is still open. */
  lemma RevealAdds(b: Ballots, docket: Docket, p: Params, env: Env, now: int, m: C.Reveal)
    requires RevealVote(b, docket, p, env, now, m).Ok?
    ensures var k := AssignmentId(VoteOf(m).round, VoteOf(m).domain);
      k in docket && !docket[k].finalized
    ensures RevealVote(b, docket, p, env, now, m).value.submissions == b.submissions[VoteOf(m) := SubmissionOf(m, now)]
  {
  }

  /** The tally recorded at finalization is the tally a later recount finds. */
  ghost predicate TallyOk(docket: Docket, submissions: map<VoteId, Submission>, tallies: map<AssignmentId, Stats>) {
    forall k :: k in docket && docket[k].finalized ==>
      k in tallies && tallies[k] == TallyOf(submissions, k, docket[k])
  }

  lemma RevealKeepsTallies(b: Ballots, docket: Docket, p: Params, env: Env, now: int, m: C.Reveal, tallies: map<AssignmentId, Stats>)
    requires RevealVote(b, docket, p, env, now, m).Ok? && TallyOk(docket, b.submissions, tallies)
    ensures TallyOk(docket, RevealVote(b, docket, p, env, now, m).value.submissions, tallies)
  {
    forall k | k in docket && docket[k].finalized
      ensures TallyOf(RevealVote(b, docket, p, env, now, m).value.submissions, k, docket[k]) == TallyOf(b.submissions, k, docket[k])
    {
      FinalizedVotesFrozen(b, docket, p, env, now, m, k);
    }
  }

  /** Nobody can open one commit to two different verdicts without exhibiting a hash collision. */
  lemma StoredVerdictBound(b: Ballots, docket: Docket, p: Params, env: Env, v: VoteId, other: C.Reveal)
    requires VotesOk(b, docket, p, env) && v in b.submissions && VoteOf(other) == v
    requires other.Opens(env.sha, docket[AssignmentId(v.round, v.domain)].owner, b.commitLog[v].hash)
    ensures var owner := docket[AssignmentId(v.round, v.domain)].owner;
      other.passed == b.submissions[v].passed
      || C.Collision(env.sha, b.revealLog[v].message.Payload(owner).value, other.Payload(owner).value)
  {
    assert RevealOk(docket, p, env, v, b.commitLog[v], b.revealLog[v], b.submissions[v]);
    C.CommitBindsVerdict(env.sha, b.revealLog[v].message, other, docket[AssignmentId(v.round, v.domain)].owner,
                         b.commitLog[v].hash);
  }

  // When a vote is accepted, and what is stored.

  /**
   * A commit is accepted if and only if a member of the panel of an open assignment sends a 64-digit hash between the
   * start and the commit deadline, both included, for the first time. The lower-case hash is stored.
   */
  lemma CommitAccepted(b: Ballots, docket: Docket, p: Params, now: int, m: CommitMsg)
    ensures var d := Trim(Lower(m.domain));
      var k, v, hash := AssignmentId(m.round, d), VoteId(m.round, d, m.verifier), Trim(m.hash);
      && (SubmitCommit(b, docket, p, now, m).Ok? <==>
            && IsAddress(m.verifier) && Trim(m.domain) != "" && m.round > 0 && |hash| == 64 && HexText(hash)
            && k in docket && !docket[k].finalized && m.verifier in docket[k].verifiers
            && docket[k].start <= now <= docket[k].start + p.commitWindow
            && v !in b.commits && v !in b.submissions)
      && (SubmitCommit(b, docket, p, now, m).Ok? ==>
            SubmitCommit(b, docket, p, now, m).value
            == b.(commits := b.commits[v := Lower(hash)], commitLog := b.commitLog[v := CommitRecord(now, Lower(hash))]))
  {
  }

  /** The counts of a reveal fit together, and the evidence that it carries hashes to its evidence hash. */
  predicate EvidenceFits(m: C.Reveal, h: C.Hash) {
    && 0 <= m.matched <= Min(m.observed, m.expected)
    && (m.expected == 0 || Trim(m.expectedHash) != "") && (m.observed == 0 || Trim(m.observedHash) != "")
    && (m.observed > 0 || m.expected > 0 || Trim(m.expectedHash) != "" || Trim(m.observedHash) != "" ==>
          Lower(Trim(m.evidence)) == h(C.EvidencePayload(m.observed, m.matched, m.expected, m.expectedHash, m.observedHash)))
  }

  /** The text that a reveal must hash to, for an assignment with or without an owner. */
  function OpeningText(m: C.Reveal, owner: string): string {
    if Trim(owner) == "" then C.PayloadV1(C.Normalize(m.domain), m.round, m.verifier, m.passed, Trim(m.evidence), Trim(m.nonce))
    else C.PayloadV2(C.Normalize(m.domain), m.round, m.verifier, Trim(owner), m.passed, Trim(m.evidence), Trim(m.nonce))
  }

  /** Sender, domain, round, nonce, owner and evidence are well formed. */
  predicate RevealWellFormed(m: C.Reveal, h: C.Hash) {
    && IsAddress(m.verifier) && Trim(m.domain) != "" && m.round > 0 && Trim(m.nonce) != ""
    && (Trim(m.owner) == "" || IsAddress(Trim(m.owner))) && EvidenceFits(m, h)
  }

  lemma ValidMeaning(m: C.Reveal, h: C.Hash)
    ensures m.Valid(h) <==> RevealWellFormed(m, h)
  {
  }

  lemma OpensMeaning(m: C.Reveal, h: C.Hash, owner: string, commit: string)
    ensures m.Opens(h, owner, commit) <==> Trim(m.owner) == Trim(owner) && Lower(commit) == h(OpeningText(m, owner))
  {
  }

  /**
   * A reveal is accepted if and only if a member of the panel of an open assignment sends it, well formed, after the commit
   * deadline and no later than the deadline, with the assignment's owner, and it hashes to the sender's commit.
   */
  lemma RevealAcceptedIff(b: Ballots, docket: Docket, p: Params, env: Env, now: int, m: C.Reveal)
    ensures var d := Trim(Lower(m.domain));
      var k, v := AssignmentId(m.round, d), VoteId(m.round, d, m.verifier);
      RevealVote(b, docket, p, env, now, m).Ok? <==>
        && RevealWellFormed(m, env.sha) && now > 0
        && k in docket && !docket[k].finalized && m.verifier in docket[k].verifiers
        && docket[k].start + p.commitWindow < now <= docket[k].deadline
        && v !in b.submissions && v in b.commits
        && Trim(m.owner) == Trim(docket[k].owner) && Lower(b.commits[v]) == env.sha(OpeningText(m, docket[k].owner))
  {
    ValidMeaning(m, env.sha);
    var k, v := AssignmentId(m.round, C.Normalize(m.domain)), VoteOf(m);
    if k in docket && v in b.commits { OpensMeaning(m, env.sha, docket[k].owner, b.commits[v]); }
  }

  /** An accepted reveal replaces the sender's commit by a submission with exactly the revealed fields. */
  lemma RevealStored(b: Ballots, docket: Docket, p: Params, env: Env, now: int, m: C.Reveal)
    requires RevealVote(b, docket, p, env, now, m).Ok?
    ensures var v := VoteId(m.round, Trim(Lower(m.domain)), m.verifier);
      var sub := Submission(m.verifier, m.passed, now, m.observed, m.matched, m.expected,
                            Lower(Trim(m.expectedHash)), Lower(Trim(m.observedHash)));
      RevealVote(b, docket, p, env, now, m).value
      == Ballots(b.commits - {v}, b.submissions[v := sub], b.commitLog, b.revealLog[v := RevealRecord(now, m)])
  {
  }
}
