// Commit and evidence payloads and what they bind (x/registry/typespb/commit_hash.go, msg.go, and the
// reveal checks of x/registry/msg_server.go).
module CommitHash {
  import opened Base
  import opened Text
  import opened Domains

  /** SHA-256 in lower-case hex, as an uninterpreted function: 64 characters, none of them a bar. */
  type Hash = string -> string

  ghost predicate IsHexHash(h: Hash) {
    forall x :: |h(x)| == 64 && '|' !in h(x)
  }

  /** Two different payloads with one hash. */
  predicate Collision(h: Hash, x: string, y: string) {
    x != y && h(x) == h(y)
  }

  function Verdict(passed: bool): string {
    if passed then "pass" else "fail"
  }

  function Normalize(domain: string): string {
    Trim(Lower(domain))
  }

  const V2_TAG := "publisher-verification-v2"
  const EVIDENCE_TAG := "publisher-similar-v1"

  function PayloadV1(domain: string, round: int, verifier: string, passed: bool, evidence: string, nonce: string): string {
    Join([Normalize(domain)] + ([Decimal(round)] + ([Trim(verifier)] + (
      [Verdict(passed)] + ([Trim(evidence)] + [Trim(nonce)])))))
  }

  function PayloadV2(domain: string, round: int, verifier: string, owner: string, passed: bool, evidence: string,
                     nonce: string): string {
    Join([V2_TAG] + ([Normalize(domain)] + ([Decimal(round)] + ([Trim(verifier)] + ([Trim(owner)] + (
      [Verdict(passed)] + ([Trim(evidence)] + [Trim(nonce)])))))))
  }

  function EvidencePayload(observed: int, matched: int, expected: int, expectedHash: string, observedHash: string): string {
    Join([EVIDENCE_TAG] + ([Decimal(observed)] + ([Decimal(matched)] + ([Decimal(expected)] + (
      [Normalize(expectedHash)] + [Normalize(observedHash)])))))
  }

  /** MsgRevealVerification. */
  datatype Reveal = Reveal(
    domain: string,
    round: int,
    verifier: string,
    owner: string,
    passed: bool,
    evidence: string,
    nonce: string,
    observed: int,
    matched: int,
    expected: int,
    expectedHash: string,
    observedHash: string)
  {
    function EvidenceText(): string {
      EvidencePayload(observed, matched, expected, expectedHash, observedHash)
    }

    predicate HasEvidence() {
      observed != 0 || matched != 0 || expected != 0 || Trim(expectedHash) != "" || Trim(observedHash) != ""
    }

    /** ValidateBasic. */
    predicate Valid(h: Hash) {
      && IsAddress(verifier)
      && Trim(domain) != ""
      && round > 0
      && Trim(nonce) != ""
      && (Trim(owner) != "" ==> IsAddress(Trim(owner)))
      && 0 <= observed && 0 <= matched && 0 <= expected
      && matched <= observed && matched <= expected
      && (expected > 0 ==> Trim(expectedHash) != "")
      && (observed > 0 ==> Trim(observedHash) != "")
      && (HasEvidence() ==> Lower(Trim(evidence)) == h(EvidenceText()))
    }

    /** The payload the reveal must hash to, or None when the verification owner does not fit. */
    function Payload(assignmentOwner: string): Option<string> {
      if Trim(assignmentOwner) != "" then
        if Trim(owner) != Trim(assignmentOwner) then None
        else Some(PayloadV2(Normalize(domain), round, verifier, Trim(owner), passed, Trim(evidence), Trim(nonce)))
      else if Trim(owner) != "" then None
      else Some(PayloadV1(Normalize(domain), round, verifier, passed, Trim(evidence), Trim(nonce)))
    }

    /** The reveal opens the commit. */
    predicate Opens(h: Hash, assignmentOwner: string, commit: string) {
      Payload(assignmentOwner).Some? && Lower(commit) == h(Payload(assignmentOwner).value)
    }
  }

  predicate SameAssignment(a: Reveal, b: Reveal) {
    Normalize(a.domain) == Normalize(b.domain) && a.round == b.round && a.verifier == b.verifier
  }

  function Tail(r: Reveal): seq<string> {
    [Verdict(r.passed)] + ([Trim(Trim(r.evidence))] + [Trim(Trim(r.nonce))])
  }

  /** Equal payloads for one assignment have equal tails: verdict, evidence, nonce. */
  lemma PayloadTail(a: Reveal, b: Reveal, assignmentOwner: string)
    requires SameAssignment(a, b)
    requires a.Payload(assignmentOwner).Some? && a.Payload(assignmentOwner) == b.Payload(assignmentOwner)
    ensures Join(Tail(a)) == Join(Tail(b))
  {
    var d, r, v := Normalize(Normalize(a.domain)), Decimal(a.round), Trim(a.verifier);
    var x, y := Tail(a), Tail(b);
    if Trim(assignmentOwner) != "" {
      var o := Trim(Trim(a.owner));
      CancelField(V2_TAG, [d] + ([r] + ([v] + ([o] + x))), [d] + ([r] + ([v] + ([o] + y))));
      CancelField(d, [r] + ([v] + ([o] + x)), [r] + ([v] + ([o] + y)));
      CancelField(r, [v] + ([o] + x), [v] + ([o] + y));
      CancelField(v, [o] + x, [o] + y);
      CancelField(o, x, y);
    } else {
      CancelField(d, [r] + ([v] + x), [r] + ([v] + y));
      CancelField(r, [v] + x, [v] + y);
      CancelField(v, x, y);
    }
  }

  lemma TailBindsVerdict(a: Reveal, b: Reveal)
    requires Join(Tail(a)) == Join(Tail(b))
    ensures a.passed == b.passed
    ensures Join([Trim(Trim(a.evidence))] + [Trim(Trim(a.nonce))]) == Join([Trim(Trim(b.evidence))] + [Trim(Trim(b.nonce))])
  {
    CancelLength(Verdict(a.passed), [Trim(Trim(a.evidence))] + [Trim(Trim(a.nonce))],
                 Verdict(b.passed), [Trim(Trim(b.evidence))] + [Trim(Trim(b.nonce))]);
    assert Verdict(true)[0] == 'p' && Verdict(false)[0] == 'f';
  }

  /**
   * Commitment binding: two reveals that open the same commit agree on pass or fail, although nonce and
   * evidence are free text, unless they exhibit a hash collision.
   */
  lemma CommitBindsVerdict(h: Hash, a: Reveal, b: Reveal, assignmentOwner: string, commit: string)
    requires SameAssignment(a, b)
    requires a.Opens(h, assignmentOwner, commit) && b.Opens(h, assignmentOwner, commit)
    ensures a.passed == b.passed || Collision(h, a.Payload(assignmentOwner).value, b.Payload(assignmentOwner).value)
  {
    if a.Payload(assignmentOwner) == b.Payload(assignmentOwner) {
      PayloadTail(a, b, assignmentOwner);
      TailBindsVerdict(a, b);
    }
  }

  lemma EvidenceBindsCounts(a: Reveal, b: Reveal)
    requires a.EvidenceText() == b.EvidenceText()
    ensures a.observed == b.observed && a.matched == b.matched && a.expected == b.expected
    ensures Join([Normalize(a.expectedHash)] + [Normalize(a.observedHash)])
         == Join([Normalize(b.expectedHash)] + [Normalize(b.observedHash)])
  {
    var x := [Normalize(a.expectedHash)] + [Normalize(a.observedHash)];
    var y := [Normalize(b.expectedHash)] + [Normalize(b.observedHash)];
    DecimalHasNoBar(a.observed); DecimalHasNoBar(a.matched); DecimalHasNoBar(a.expected);
    DecimalHasNoBar(b.observed); DecimalHasNoBar(b.matched); DecimalHasNoBar(b.expected);
    CancelField(EVIDENCE_TAG, [Decimal(a.observed)] + ([Decimal(a.matched)] + ([Decimal(a.expected)] + x)),
                [Decimal(b.observed)] + ([Decimal(b.matched)] + ([Decimal(b.expected)] + y)));
    PeelField(Decimal(a.observed), [Decimal(a.matched)] + ([Decimal(a.expected)] + x),
              Decimal(b.observed), [Decimal(b.matched)] + ([Decimal(b.expected)] + y));
    PeelField(Decimal(a.matched), [Decimal(a.expected)] + x, Decimal(b.matched), [Decimal(b.expected)] + y);
    PeelField(Decimal(a.expected), x, Decimal(b.expected), y);
    DecimalInjective(a.observed, b.observed);
    DecimalInjective(a.matched, b.matched);
    DecimalInjective(a.expected, b.expected);
  }

  /** Two valid reveals with evidence that open one commit carry one evidence hash. */
  lemma CommitBindsEvidence(h: Hash, a: Reveal, b: Reveal, assignmentOwner: string, commit: string)
    requires IsHexHash(h) && SameAssignment(a, b)
    requires a.Valid(h) && b.Valid(h) && a.HasEvidence() && b.HasEvidence()
    requires a.Opens(h, assignmentOwner, commit) && b.Opens(h, assignmentOwner, commit)
    ensures h(a.EvidenceText()) == h(b.EvidenceText())
            || Collision(h, a.Payload(assignmentOwner).value, b.Payload(assignmentOwner).value)
  {
    if a.Payload(assignmentOwner) == b.Payload(assignmentOwner) {
      PayloadTail(a, b, assignmentOwner);
      TailBindsVerdict(a, b);
      TrimTrims(a.evidence);
      TrimTrims(b.evidence);
      assert |Lower(Trim(a.evidence))| == 64 && |Lower(Trim(b.evidence))| == 64;
      CancelLength(Trim(Trim(a.evidence)), [Trim(Trim(a.nonce))], Trim(Trim(b.evidence)), [Trim(Trim(b.nonce))]);
    }
  }

  /** ... and therefore the same three counts, unless a collision is exhibited. */
  lemma CommitBindsCounts(h: Hash, a: Reveal, b: Reveal, assignmentOwner: string, commit: string)
    requires IsHexHash(h) && SameAssignment(a, b)
    requires a.Valid(h) && b.Valid(h) && a.HasEvidence() && b.HasEvidence()
    requires a.Opens(h, assignmentOwner, commit) && b.Opens(h, assignmentOwner, commit)
    ensures (a.observed == b.observed && a.matched == b.matched && a.expected == b.expected)
            || Collision(h, a.Payload(assignmentOwner).value, b.Payload(assignmentOwner).value)
            || Collision(h, a.EvidenceText(), b.EvidenceText())
  {
    CommitBindsEvidence(h, a, b, assignmentOwner, commit);
    if a.EvidenceText() == b.EvidenceText() { EvidenceBindsCounts(a, b); }
  }

  // The two set hashes. The evidence text joins them with a bar, so it binds them exactly when no other bar of
  // the joined text cuts it into two fields that a valid reveal could carry.

  predicate SameSetHashes(a: Reveal, b: Reveal) {
    Normalize(a.expectedHash) == Normalize(b.expectedHash) && Normalize(a.observedHash) == Normalize(b.observedHash)
  }

  function JoinedHashes(r: Reveal): string {
    Normalize(r.expectedHash) + "|" + Normalize(r.observedHash)
  }

  /** A field is stored as it is, and not empty when its count is positive. */
  predicate Usable(field: string, count: int) {
    Normalize(field) == field && (count > 0 ==> field != "")
  }

  /** Bar i of the joined hashes, not the separating one, also cuts them into two usable fields. */
  predicate OtherCut(r: Reveal, i: nat) {
    var t := JoinedHashes(r);
    && i < |t| && t[i] == '|' && i != |Normalize(r.expectedHash)|
    && Usable(t[..i], r.expected) && Usable(t[i + 1..], r.observed)
  }

  function Recut(r: Reveal, i: nat): Reveal
    requires i < |JoinedHashes(r)|
  {
    r.(expectedHash := JoinedHashes(r)[..i], observedHash := JoinedHashes(r)[i + 1..])
  }

  lemma JoinOfTwo(e: string, o: string)
    ensures Join([e] + [o]) == e + "|" + o
  {
    assert ([e] + [o])[1..] == [o];
  }

  lemma RecutText(r: Reveal, i: nat)
    requires OtherCut(r, i)
    ensures JoinedHashes(Recut(r, i)) == JoinedHashes(r) && Recut(r, i).EvidenceText() == r.EvidenceText()
  {
    var q := Recut(r, i);
    var t := JoinedHashes(r);
    assert t == t[..i] + "|" + t[i + 1..];
    var e, o, e', o' := Normalize(r.expectedHash), Normalize(r.observedHash), Normalize(q.expectedHash), Normalize(q.observedHash);
    JoinOfTwo(e, o);
    JoinOfTwo(e', o');
    SamePrefixPayload(r.observed, r.matched, r.expected, [e] + [o], [e'] + [o']);
  }

  lemma UsableNonEmpty(field: string, count: int)
    requires Usable(field, count)
    ensures count > 0 ==> Trim(field) != ""
  {
    LowerBlank(field);
  }

  /** Another cut is another valid reveal that opens the same commit with the same evidence and different set hashes. */
  lemma OtherCutUnbinds(h: Hash, r: Reveal, i: nat, assignmentOwner: string, commit: string)
    requires r.Valid(h) && r.HasEvidence() && OtherCut(r, i)
    ensures Recut(r, i).Valid(h) && Recut(r, i).EvidenceText() == r.EvidenceText()
    ensures r.Opens(h, assignmentOwner, commit) ==> Recut(r, i).Opens(h, assignmentOwner, commit)
    ensures !SameSetHashes(Recut(r, i), r)
  {
    RecutText(r, i);
    UsableNonEmpty(JoinedHashes(r)[..i], r.expected);
    UsableNonEmpty(JoinedHashes(r)[i + 1..], r.observed);
    assert |JoinedHashes(r)[..i]| == i;
  }

  /** Without another cut every valid reveal with the same evidence text has the same set hashes. */
  lemma NoOtherCutBinds(h: Hash, r: Reveal, q: Reveal)
    requires q.Valid(h) && q.EvidenceText() == r.EvidenceText() && forall i: nat :: !OtherCut(r, i)
    ensures SameSetHashes(q, r)
  {
    EvidenceBindsCounts(q, r);
    var e, o, e', o' := Normalize(r.expectedHash), Normalize(r.observedHash), Normalize(q.expectedHash), Normalize(q.observedHash);
    JoinOfTwo(e, o);
    JoinOfTwo(e', o');
    StoredUsable(q.expectedHash, q.expected);
    StoredUsable(q.observedHash, q.observed);
    OneCut(e, o, e', o');
    assert !OtherCut(r, |e'|);
  }

  /** Equal joined texts that are cut at the same place have equal fields. */
  lemma OneCut(e: string, o: string, e': string, o': string)
    requires e + "|" + o == e' + "|" + o'
    ensures (e + "|" + o)[|e'|] == '|' && (e + "|" + o)[..|e'|] == e' && (e + "|" + o)[|e'| + 1..] == o'
    ensures |e| == |e'| ==> e == e' && o == o'
  {
    var t := e + "|" + o;
    assert t[..|e|] == e && t[|e| + 1..] == o;
    assert (e' + "|" + o')[..|e'|] == e' && (e' + "|" + o')[|e'| + 1..] == o';
  }

  /** A normalized field is usable when the reveal was valid. */
  lemma StoredUsable(hash: string, count: int)
    requires count > 0 ==> Trim(hash) != ""
    ensures Usable(Normalize(hash), count)
  {
    TrimLowerIdempotent(hash);
    LowerBlank(hash);
  }

  /** The evidence hash of a reveal binds its set hashes if and only if the joined text has no other cut. */
  lemma SetHashesBoundIff(h: Hash, r: Reveal)
    requires r.Valid(h) && r.HasEvidence()
    ensures (forall q: Reveal :: q.Valid(h) && q.EvidenceText() == r.EvidenceText() ==> SameSetHashes(q, r))
            <==> (forall i: nat :: !OtherCut(r, i))
  {
    if i: nat :| OtherCut(r, i) {
      OtherCutUnbinds(h, r, i, "", "");
    } else {
      forall q: Reveal | q.Valid(h) && q.EvidenceText() == r.EvidenceText()
        ensures SameSetHashes(q, r)
      {
        NoOtherCutBinds(h, r, q);
      }
    }
  }

  predicate Plain(s: string) {
    forall i :: 0 <= i < |s| ==> !IsSpace(s[i]) && !('A' <= s[i] <= 'Z')
  }

  lemma PlainNormalized(s: string)
    requires Plain(s)
    ensures Normalize(s) == s
  {
    assert Lower(s) == s;
    TrimIdentity(s);
  }

  /**
   * For hashes without blanks the other cuts are exactly the bars inside either hash, except one in front of the
   * expected hash or behind the observed hash that would leave a counted field empty.
   */
  lemma CutsAreBars(r: Reveal, i: nat)
    requires Plain(Normalize(r.expectedHash)) && Plain(Normalize(r.observedHash))
    ensures var e, o := Normalize(r.expectedHash), Normalize(r.observedHash);
      OtherCut(r, i) <==>
        || (i < |e| && e[i] == '|' && (r.expected > 0 ==> i > 0))
        || (|e| < i <= |e| + |o| && o[i - |e| - 1] == '|' && (r.observed > 0 ==> i < |e| + |o|))
  {
    var t := JoinedHashes(r);
    PlainJoin(Normalize(r.expectedHash), Normalize(r.observedHash), t);
    if i < |t| {
      UsablePlain(t[..i], r.expected);
      UsablePlain(t[i + 1..], r.observed);
    }
  }

  lemma PlainJoin(e: string, o: string, t: string)
    requires Plain(e) && Plain(o) && t == e + "|" + o
    ensures forall i :: 0 <= i < |t| ==> Plain(t[..i]) && Plain(t[i + 1..])
  {
    assert Plain(t);
  }

  lemma UsablePlain(field: string, count: int)
    requires Plain(field)
    ensures Usable(field, count) <==> (count > 0 ==> |field| > 0)
  {
    PlainNormalized(field);
  }

  /** Without a bar in either hash there is no other cut, blanks or not. */
  lemma BarFreeHasNoCut(r: Reveal, i: nat)
    requires '|' !in Normalize(r.expectedHash) && '|' !in Normalize(r.observedHash)
    ensures !OtherCut(r, i)
  {
  }

  /** A commit binds the set hashes of a reveal without other cuts, unless a collision is exhibited. */
  lemma CommitBindsSetHashes(h: Hash, a: Reveal, b: Reveal, assignmentOwner: string, commit: string)
    requires IsHexHash(h) && SameAssignment(a, b)
    requires a.Valid(h) && b.Valid(h) && a.HasEvidence() && b.HasEvidence()
    requires a.Opens(h, assignmentOwner, commit) && b.Opens(h, assignmentOwner, commit)
    requires forall i: nat :: !OtherCut(a, i)
    ensures SameSetHashes(b, a)
            || Collision(h, a.Payload(assignmentOwner).value, b.Payload(assignmentOwner).value)
            || Collision(h, a.EvidenceText(), b.EvidenceText())
  {
    CommitBindsEvidence(h, a, b, assignmentOwner, commit);
    if a.EvidenceText() == b.EvidenceText() { NoOtherCutBinds(h, a, b); }
  }

  lemma SamePrefixPayload(a: int, b: int, c: int, xs: seq<string>, ys: seq<string>)
    requires xs != [] && ys != [] && Join(xs) == Join(ys)
    ensures Join([EVIDENCE_TAG] + ([Decimal(a)] + ([Decimal(b)] + ([Decimal(c)] + xs))))
         == Join([EVIDENCE_TAG] + ([Decimal(a)] + ([Decimal(b)] + ([Decimal(c)] + ys))))
  {
    SameTailJoin(Decimal(c), xs, ys);
    SameTailJoin(Decimal(b), [Decimal(c)] + xs, [Decimal(c)] + ys);
    SameTailJoin(Decimal(a), [Decimal(b)] + ([Decimal(c)] + xs), [Decimal(b)] + ([Decimal(c)] + ys));
    SameTailJoin(EVIDENCE_TAG, [Decimal(a)] + ([Decimal(b)] + ([Decimal(c)] + xs)),
                 [Decimal(a)] + ([Decimal(b)] + ([Decimal(c)] + ys)));
  }

  lemma SameTailJoin(a: string, xs: seq<string>, ys: seq<string>)
    requires xs != [] && ys != [] && Join(xs) == Join(ys)
    ensures Join([a] + xs) == Join([a] + ys)
  {
    assert ([a] + xs)[1..] == xs && ([a] + ys)[1..] == ys;
  }

  /** A legacy payload never equals an owner-scoped one: a domain has a dot, the tag has none. */
  lemma VersionsNeverAlias(domain: string, r1: int, v1: string, p1: bool, e1: string, n1: string,
                           d2: string, r2: int, v2: string, o2: string, p2: bool, e2: string, n2: string)
    requires ValidDomain(Normalize(domain))
    ensures PayloadV1(domain, r1, v1, p1, e1, n1) != PayloadV2(d2, r2, v2, o2, p2, e2, n2)
  {
    var d := Normalize(domain);
    ValidDomainText(d);
    var xs := [Decimal(r1)] + ([Trim(v1)] + ([Verdict(p1)] + ([Trim(e1)] + [Trim(n1)])));
    var ys := [Normalize(d2)] + ([Decimal(r2)] + ([Trim(v2)] + ([Trim(o2)] + ([Verdict(p2)] + ([Trim(e2)] + [Trim(n2)])))));
    FirstFieldDiffers(d, xs, V2_TAG, ys);
  }

  lemma FirstFieldDiffers(a: string, xs: seq<string>, b: string, ys: seq<string>)
    requires xs != [] && ys != [] && '|' !in a && '|' !in b && a != b
    ensures Join([a] + xs) != Join([b] + ys)
  {
    assert ([a] + xs)[1..] == xs && ([b] + ys)[1..] == ys;
    FirstBarAfter(a, Join(xs));
    FirstBarAfter(b, Join(ys));
    assert (a + "|" + Join(xs))[..|a|] == a && (b + "|" + Join(ys))[..|b|] == b;
  }

  // The payload texts.

  lemma {:induction false} JoinTwoOrMore(x: string, rest: seq<string>)
    requires rest != []
    ensures Join([x] + rest) == x + "|" + Join(rest)
  {
    assert ([x] + rest)[1..] == rest;
  }

  /** A payload without an owner: domain, round, verifier, verdict, evidence and nonce between bars. */
  lemma LegacyLayout(domain: string, round: int, verifier: string, passed: bool, evidence: string, nonce: string)
    ensures PayloadV1(domain, round, verifier, passed, evidence, nonce)
         == Trim(Lower(domain)) + "|" + (Decimal(round) + "|" + (Trim(verifier) + "|" + (
            (if passed then "pass" else "fail") + "|" + (Trim(evidence) + "|" + Trim(nonce)))))
  {
    var e, n := Trim(evidence), [Trim(nonce)];
    JoinTwoOrMore(e, n);
    JoinTwoOrMore(Verdict(passed), [e] + n);
    JoinTwoOrMore(Trim(verifier), [Verdict(passed)] + ([e] + n));
    JoinTwoOrMore(Decimal(round), [Trim(verifier)] + ([Verdict(passed)] + ([e] + n)));
    JoinTwoOrMore(Normalize(domain), [Decimal(round)] + ([Trim(verifier)] + ([Verdict(passed)] + ([e] + n))));
  }

  /** A payload with an owner: the version, then domain, round, verifier, owner, verdict, evidence and nonce. */
  lemma OwnerLayout(domain: string, round: int, verifier: string, owner: string, passed: bool, evidence: string, nonce: string)
    ensures PayloadV2(domain, round, verifier, owner, passed, evidence, nonce)
         == "publisher-verification-v2|" + (Trim(Lower(domain)) + "|" + (Decimal(round) + "|" + (Trim(verifier) + "|" + (
            Trim(owner) + "|" + ((if passed then "pass" else "fail") + "|" + (Trim(evidence) + "|" + Trim(nonce)))))))
  {
    var e, n := Trim(evidence), [Trim(nonce)];
    JoinTwoOrMore(e, n);
    JoinTwoOrMore(Verdict(passed), [e] + n);
    var x := [Verdict(passed)] + ([e] + n);
    JoinTwoOrMore(Trim(owner), x);
    JoinTwoOrMore(Trim(verifier), [Trim(owner)] + x);
    JoinTwoOrMore(Decimal(round), [Trim(verifier)] + ([Trim(owner)] + x));
    JoinTwoOrMore(Normalize(domain), [Decimal(round)] + ([Trim(verifier)] + ([Trim(owner)] + x)));
    JoinTwoOrMore(V2_TAG, [Normalize(domain)] + ([Decimal(round)] + ([Trim(verifier)] + ([Trim(owner)] + x))));
  }

  /** The evidence: the version, then observed, matched and expected counts, expected and observed set hash. */
  lemma EvidenceLayout(observed: int, matched: int, expected: int, expectedHash: string, observedHash: string)
    ensures EvidencePayload(observed, matched, expected, expectedHash, observedHash)
         == "publisher-similar-v1|" + (Decimal(observed) + "|" + (Decimal(matched) + "|" + (Decimal(expected) + "|" + (
            Trim(Lower(expectedHash)) + "|" + Trim(Lower(observedHash))))))
  {
    var x, y := Normalize(expectedHash), [Normalize(observedHash)];
    JoinTwoOrMore(x, y);
    JoinTwoOrMore(Decimal(expected), [x] + y);
    JoinTwoOrMore(Decimal(matched), [Decimal(expected)] + ([x] + y));
    JoinTwoOrMore(Decimal(observed), [Decimal(matched)] + ([Decimal(expected)] + ([x] + y)));
    JoinTwoOrMore(EVIDENCE_TAG, [Decimal(observed)] + ([Decimal(matched)] + ([Decimal(expected)] + ([x] + y))));
  }
}
