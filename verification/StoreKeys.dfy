// Byte keys of the registry store and the tuple-keyed maps they stand for
// (x/registry/verification_keeper.go, keeper.go, similar_store.go).
module StoreKeys {
  import opened Base
  import opened Orders
  import opened Text
  import opened Domains

  type Bytes = seq<int>

  // Big-endian numbers.

  function Pow256(k: nat): (r: nat)
    ensures r > 0
  {
    if k == 0 then 1 else 256 * Pow256(k - 1)
  }

  /** n in k big-endian bytes. */
  function BigEndian(n: nat, k: nat): (r: Bytes)
    ensures |r| == k && forall i :: 0 <= i < k ==> 0 <= r[i] < 256
  {
    if k == 0 then [] else BigEndian(n / 256, k - 1) + [n % 256]
  }

  function Value(b: Bytes): int {
    if b == [] then 0 else 256 * Value(b[..|b| - 1]) + b[|b| - 1]
  }

  /** Decoding undoes encoding for every number that fits. */
  lemma {:induction false} BigEndianRoundTrip(n: nat, k: nat)
    requires n < Pow256(k)
    ensures Value(BigEndian(n, k)) == n
  {
    if k > 0 {
      BigEndianRoundTrip(n / 256, k - 1);
      assert BigEndian(n, k)[..k - 1] == BigEndian(n / 256, k - 1);
    }
  }

  /** A round start that fits an int64; validated assignments have positive ones. */
  predicate IsRound(r: int) {
    0 <= r <= MAX_INT64
  }

  /** The int64 reinterpreted as unsigned, in eight bytes. */
  function RoundKey(r: int): (b: Bytes)
    ensures |b| == 8
  {
    BigEndian(r % TWO_64, 8)
  }

  lemma RoundKeyIs(r: int)
    requires IsRound(r)
    ensures RoundKey(r) == BigEndian(r, 8) && r < Pow256(8)
  {
    Pow256Eight();
    assert r % TWO_64 == r;
  }

  lemma RoundKeyInjective(a: int, b: int)
    requires IsRound(a) && IsRound(b) && RoundKey(a) == RoundKey(b)
    ensures a == b
  {
    RoundKeyIs(a);
    RoundKeyIs(b);
    BigEndianRoundTrip(a, 8);
    BigEndianRoundTrip(b, 8);
  }

  // Text in keys; all of it is ASCII.

  function Raw(s: string): (b: Bytes)
    ensures |b| == |s| && forall i :: 0 <= i < |s| ==> b[i] == s[i] as int
  {
    if s == "" then [] else Raw(s[..|s| - 1]) + [s[|s| - 1] as int]
  }

  lemma RawInjective(a: string, b: string)
    requires Raw(a) == Raw(b)
    ensures a == b
  {
    assert |a| == |b|;
    forall i | 0 <= i < |a|
      ensures a[i] == b[i]
    {
      assert Raw(a)[i] == Raw(b)[i];
    }
  }

  // The encoders.

  datatype AssignmentId = AssignmentId(round: int, domain: string)
  datatype VoteId = VoteId(round: int, domain: string, verifier: string)

  function AssignmentKey(k: AssignmentId): Bytes {
    RoundKey(k.round) + Raw(k.domain)
  }

  function VotePrefix(k: AssignmentId): Bytes {
    AssignmentKey(k) + [0]
  }

  /** submissionKey and commitKey, which encode alike under different store prefixes. */
  function VoteKey(k: VoteId): Bytes {
    VotePrefix(AssignmentId(k.round, k.domain)) + Raw(k.verifier)
  }

  function SimilarKey(domain: string): Bytes {
    Raw(domain)
  }

  lemma AssignmentKeyInjective(a: AssignmentId, b: AssignmentId)
    requires IsRound(a.round) && IsRound(b.round) && AssignmentKey(a) == AssignmentKey(b)
    ensures a == b
  {
    assert AssignmentKey(a)[..8] == RoundKey(a.round) && AssignmentKey(b)[..8] == RoundKey(b.round);
    assert AssignmentKey(a)[8..] == Raw(a.domain) && AssignmentKey(b)[8..] == Raw(b.domain);
    RoundKeyInjective(a.round, b.round);
    RawInjective(a.domain, b.domain);
  }

  /** The scan over one round returns exactly that round's assignments. */
  lemma RoundScanExact(r: int, k: AssignmentId)
    requires IsRound(r) && IsRound(k.round)
    ensures RoundKey(r) <= AssignmentKey(k) <==> k.round == r
  {
    if RoundKey(r) <= AssignmentKey(k) {
      assert RoundKey(r) == AssignmentKey(k)[..8] == RoundKey(k.round);
      RoundKeyInjective(r, k.round);
    }
  }

  ghost predicate NoNul(s: string) {
    forall i :: 0 <= i < |s| ==> s[i] as int != 0
  }

  lemma DomainHasNoNul(s: string)
    requires ValidDomain(s)
    ensures NoNul(s)
  {
    ValidDomainText(s);
  }

  /** Number of leading non-zero bytes. */
  function FirstNul(b: Bytes): nat {
    if b == [] || b[0] == 0 then 0 else 1 + FirstNul(b[1..])
  }

  lemma {:induction false} FirstNulAfter(s: string, rest: Bytes)
    requires NoNul(s)
    ensures FirstNul(Raw(s) + [0] + rest) == |s|
  {
    if s != "" {
      assert Raw(s)[1..] == Raw(s[1..]);
      assert (Raw(s) + [0] + rest)[1..] == Raw(s[1..]) + [0] + rest;
      FirstNulAfter(s[1..], rest);
    }
  }

  /**
   * The scan over one round and domain returns exactly that assignment's votes: the NUL separator keeps
   * "a.com" apart from "a.com:80".
   */
  lemma VoteScanExact(p: AssignmentId, k: VoteId)
    requires IsRound(p.round) && IsRound(k.round) && NoNul(p.domain) && NoNul(k.domain)
    ensures VotePrefix(p) <= VoteKey(k) <==> k.round == p.round && k.domain == p.domain
  {
    var key := VoteKey(k);
    assert key[8..] == Raw(k.domain) + [0] + Raw(k.verifier);
    FirstNulAfter(k.domain, Raw(k.verifier));
    if VotePrefix(p) <= key {
      assert RoundKey(p.round) == key[..8] == RoundKey(k.round);
      RoundKeyInjective(p.round, k.round);
      var rest := key[8 + |p.domain| + 1..];
      assert key[8..] == Raw(p.domain) + [0] + rest;
      FirstNulAfter(p.domain, rest);
      assert Raw(p.domain) == key[8..][..|p.domain|] == Raw(k.domain);
      RawInjective(p.domain, k.domain);
    }
  }

  lemma VoteKeyInjective(a: VoteId, b: VoteId)
    requires IsRound(a.round) && IsRound(b.round) && NoNul(a.domain) && NoNul(b.domain) && VoteKey(a) == VoteKey(b)
    ensures a == b
  {
    var p := AssignmentId(a.round, a.domain);
    assert VotePrefix(p) <= VoteKey(b);
    VoteScanExact(p, b);
    assert VoteKey(a)[|VotePrefix(p)|..] == Raw(a.verifier) && VoteKey(b)[|VotePrefix(p)|..] == Raw(b.verifier);
    RawInjective(a.verifier, b.verifier);
  }

  /** Commits and similar statistics share the store prefix 0x13 and still never meet. */
  lemma CommitNeverSimilar(k: VoteId, domain: string)
    requires NoNul(domain)
    ensures VoteKey(k) != SimilarKey(domain)
  {
    var i := |VotePrefix(AssignmentId(k.round, k.domain))| - 1;
    assert VoteKey(k)[i] == 0;
    if i < |domain| { assert SimilarKey(domain)[i] == domain[i] as int; }
  }

  // The whole registry store: every record kind, its prefix byte and its key.

  datatype Record =
    | ParamsRecord
    | WebsiteAt(domain: string)
    | PrimaryAt(domain: string)
    | AssignmentAt(assignment: AssignmentId)
    | SubmissionAt(vote: VoteId)
    | LastRound
    | RoundMetaAt(round: int)
    | CommitAt(vote: VoteId)
    | SimilarAt(domain: string)
    | StreakAt(domain: string)
    | PenaltyAt(addr: string)
    | LatestBeacon
    | BeaconAt(round: int)
    | UnsettledAt(round: int)
    | SlotAt(id: string)
    | LeaseAt(id: string)
    | SlotSequence
    | LeaseSequence

  function PrefixByte(r: Record): int {
    match r
    case WebsiteAt(_) => 0x01
    case ParamsRecord => 0x02
    case PrimaryAt(_) => 0x03
    case AssignmentAt(_) => 0x10
    case SubmissionAt(_) => 0x11
    case LastRound => 0x12
    case RoundMetaAt(_) => 0x12
    case CommitAt(_) => 0x13
    case SimilarAt(_) => 0x13
    case StreakAt(_) => 0x14
    case PenaltyAt(_) => 0x15
    case LatestBeacon => 0x16
    case BeaconAt(_) => 0x16
    case UnsettledAt(_) => 0x17
    case SlotAt(_) => 0x20
    case LeaseAt(_) => 0x21
    case SlotSequence => 0x22
    case LeaseSequence => 0x22
  }

  function LocalKey(r: Record): Bytes {
    match r
    case WebsiteAt(d) => Raw(d)
    case ParamsRecord => [0x00]
    case PrimaryAt(d) => Raw(d)
    case AssignmentAt(k) => AssignmentKey(k)
    case SubmissionAt(k) => VoteKey(k)
    case LastRound => [0x00]
    case RoundMetaAt(n) => [0x01] + RoundKey(n)
    case CommitAt(k) => VoteKey(k)
    case SimilarAt(d) => SimilarKey(d)
    case StreakAt(d) => Raw(d)
    case PenaltyAt(a) => Raw(a)
    case LatestBeacon => [0x02]
    case BeaconAt(n) => [0x03] + RoundKey(n)
    case UnsettledAt(n) => RoundKey(n)
    case SlotAt(id) => Raw(id)
    case LeaseAt(id) => Raw(id)
    case SlotSequence => [0x01]
    case LeaseSequence => [0x02]
  }

  function Encode(r: Record): Bytes {
    [PrefixByte(r)] + LocalKey(r)
  }

  /** Rounds fit an int64; domains come from validated websites and contain no NUL byte. */
  ghost predicate WellFormed(r: Record) {
    && (r.AssignmentAt? ==> IsRound(r.assignment.round))
    && (r.SubmissionAt? || r.CommitAt? ==> IsRound(r.vote.round) && NoNul(r.vote.domain))
    && (r.RoundMetaAt? || r.BeaconAt? || r.UnsettledAt? ==> IsRound(r.round))
    && (r.SimilarAt? ==> NoNul(r.domain))
  }

  lemma TaggedRoundInjective(tag: int, a: int, b: int)
    requires IsRound(a) && IsRound(b) && [tag] + RoundKey(a) == [tag] + RoundKey(b)
    ensures a == b
  {
    assert ([tag] + RoundKey(a))[1..] == RoundKey(a) && ([tag] + RoundKey(b))[1..] == RoundKey(b);
    RoundKeyInjective(a, b);
  }

  lemma LocalKeyInjective(a: Record, b: Record)
    requires WellFormed(a) && WellFormed(b) && PrefixByte(a) == PrefixByte(b) && LocalKey(a) == LocalKey(b)
    ensures a == b
  {
    DifferentKindsDiffer(a, b);
    match a {
      case ParamsRecord =>
      case WebsiteAt(x) => RawInjective(x, b.domain);
      case PrimaryAt(x) => RawInjective(x, b.domain);
      case AssignmentAt(x) => AssignmentKeyInjective(x, b.assignment);
      case SubmissionAt(x) => VoteKeyInjective(x, b.vote);
      case LastRound =>
      case RoundMetaAt(x) => TaggedRoundInjective(0x01, x, b.round);
      case CommitAt(x) => VoteKeyInjective(x, b.vote);
      case SimilarAt(x) => RawInjective(x, b.domain);
      case StreakAt(x) => RawInjective(x, b.domain);
      case PenaltyAt(x) => RawInjective(x, b.addr);
      case LatestBeacon =>
      case BeaconAt(x) => TaggedRoundInjective(0x03, x, b.round);
      case UnsettledAt(x) => RoundKeyInjective(x, b.round);
      case SlotAt(x) => RawInjective(x, b.id);
      case LeaseAt(x) => RawInjective(x, b.id);
      case SlotSequence =>
      case LeaseSequence =>
    }
  }

  predicate SameKind(a: Record, b: Record) {
    match a
    case WebsiteAt(_) => b.WebsiteAt?
    case ParamsRecord => b.ParamsRecord?
    case PrimaryAt(_) => b.PrimaryAt?
    case AssignmentAt(_) => b.AssignmentAt?
    case SubmissionAt(_) => b.SubmissionAt?
    case LastRound => b.LastRound?
    case RoundMetaAt(_) => b.RoundMetaAt?
    case CommitAt(_) => b.CommitAt?
    case SimilarAt(_) => b.SimilarAt?
    case StreakAt(_) => b.StreakAt?
    case PenaltyAt(_) => b.PenaltyAt?
    case LatestBeacon => b.LatestBeacon?
    case BeaconAt(_) => b.BeaconAt?
    case UnsettledAt(_) => b.UnsettledAt?
    case SlotAt(_) => b.SlotAt?
    case LeaseAt(_) => b.LeaseAt?
    case SlotSequence => b.SlotSequence?
    case LeaseSequence => b.LeaseSequence?
  }

  /** Kinds that share a prefix byte are kept apart by length, first byte, or the NUL separator. */
  lemma DifferentKindsDiffer(a: Record, b: Record)
    requires WellFormed(a) && WellFormed(b) && PrefixByte(a) == PrefixByte(b)
    ensures LocalKey(a) == LocalKey(b) ==> SameKind(a, b)
  {
    if a.CommitAt? && b.SimilarAt? { CommitNeverSimilar(a.vote, b.domain); }
    if b.CommitAt? && a.SimilarAt? { CommitNeverSimilar(b.vote, a.domain); }
  }

  /** No two records of the store collide, although some prefixes are shared. */
  lemma EncodeInjective(a: Record, b: Record)
    requires WellFormed(a) && WellFormed(b) && Encode(a) == Encode(b)
    ensures a == b
  {
    assert Encode(a)[0] == PrefixByte(a) && Encode(b)[0] == PrefixByte(b);
    assert Encode(a)[1..] == LocalKey(a) && Encode(b)[1..] == LocalKey(b);
    LocalKeyInjective(a, b);
  }

  /** kv holds the bytes of exactly the records of m. */
  ghost predicate Represents<V(!new)>(kv: map<Bytes, V>, m: map<Record, V>) {
    && (forall r :: r in m ==> WellFormed(r) && Encode(r) in kv && kv[Encode(r)] == m[r])
    && (forall b :: b in kv ==> exists r :: r in m && Encode(r) == b)
  }

  /** Get, Set and Delete through byte keys act on the tuple-keyed records. */
  lemma GetRefines<V(!new)>(kv: map<Bytes, V>, m: map<Record, V>, r: Record)
    requires Represents(kv, m) && WellFormed(r)
    ensures Encode(r) in kv <==> r in m
    ensures r in m ==> kv[Encode(r)] == m[r]
  {
    if Encode(r) in kv {
      var q :| q in m && Encode(q) == Encode(r);
      EncodeInjective(q, r);
    }
  }

  lemma SetRefines<V(!new)>(kv: map<Bytes, V>, m: map<Record, V>, r: Record, v: V)
    requires Represents(kv, m) && WellFormed(r)
    ensures Represents(kv[Encode(r) := v], m[r := v])
  {
    var after := kv[Encode(r) := v];
    forall q | q in m && Encode(q) == Encode(r)
      ensures q == r
    {
      EncodeInjective(q, r);
    }
    forall b | b in after
      ensures exists q :: q in m[r := v] && Encode(q) == b
    {
      if b != Encode(r) {
        var q :| q in m && Encode(q) == b;
        assert q in m[r := v];
      } else {
        assert r in m[r := v];
      }
    }
  }

  lemma DeleteRefines<V(!new)>(kv: map<Bytes, V>, m: map<Record, V>, r: Record)
    requires Represents(kv, m) && WellFormed(r)
    ensures Represents(kv - {Encode(r)}, m - {r})
  {
    var after, rest := kv - {Encode(r)}, m - {r};
    forall q | q in rest
      ensures WellFormed(q) && Encode(q) in after && after[Encode(q)] == rest[q]
    {
      EncodeDistinct(q, r);
    }
    forall b | b in after
      ensures exists q :: q in rest && Encode(q) == b
    {
      DeleteCovers(kv, m, r, b);
    }
  }

  lemma EncodeDistinct(a: Record, b: Record)
    requires WellFormed(a) && WellFormed(b) && a != b
    ensures Encode(a) != Encode(b)
  {
    if Encode(a) == Encode(b) { EncodeInjective(a, b); }
  }

  lemma DeleteCovers<V(!new)>(kv: map<Bytes, V>, m: map<Record, V>, r: Record, b: Bytes)
    requires Represents(kv, m) && b in kv && b != Encode(r)
    ensures exists q :: q in m - {r} && Encode(q) == b
  {
    var q :| q in m && Encode(q) == b;
    assert q in m - {r};
  }

  /** The submission scan of one assignment finds only that assignment's submissions ... */
  lemma SubmissionScanSound<V(!new)>(kv: map<Bytes, V>, m: map<Record, V>, p: AssignmentId, b: Bytes) returns (v: string)
    requires Represents(kv, m) && IsRound(p.round) && NoNul(p.domain) && b in kv && [0x11] + VotePrefix(p) <= b
    ensures SubmissionAt(VoteId(p.round, p.domain, v)) in m && Encode(SubmissionAt(VoteId(p.round, p.domain, v))) == b
  {
    var r :| r in m && Encode(r) == b;
    ScanKind(r, p);
    v := r.vote.verifier;
  }

  lemma ScanKind(r: Record, p: AssignmentId)
    requires WellFormed(r) && IsRound(p.round) && NoNul(p.domain) && [0x11] + VotePrefix(p) <= Encode(r)
    ensures r.SubmissionAt? && r.vote.round == p.round && r.vote.domain == p.domain
  {
    assert Encode(r)[0] == ([0x11] + VotePrefix(p))[0];
    assert r.SubmissionAt?;
    assert VotePrefix(p) == ([0x11] + VotePrefix(p))[1..] <= Encode(r)[1..];
    assert Encode(r)[1..] == VoteKey(r.vote);
    VoteScanExact(p, r.vote);
  }

  /** ... and all of them. */
  lemma SubmissionScanComplete(p: AssignmentId, v: string)
    requires IsRound(p.round) && NoNul(p.domain)
    ensures [0x11] + VotePrefix(p) <= Encode(SubmissionAt(VoteId(p.round, p.domain, v)))
  {
    VoteScanExact(p, VoteId(p.round, p.domain, v));
  }

  // Iteration order.

  predicate BytesLe(a: Bytes, b: Bytes) {
    a == [] || (b != [] && (a[0] < b[0] || (a[0] == b[0] && BytesLe(a[1..], b[1..]))))
  }

  lemma {:induction false} RawOrder(a: string, b: string)
    ensures BytesLe(Raw(a), Raw(b)) <==> LexLe(a, b)
  {
    if a != "" && b != "" {
      assert Raw(a)[1..] == Raw(a[1..]) && Raw(b)[1..] == Raw(b[1..]);
      RawOrder(a[1..], b[1..]);
    }
  }

  lemma {:induction false} ConcatOrder(a: Bytes, x: Bytes, b: Bytes, y: Bytes)
    requires |a| == |b|
    ensures BytesLe(a + x, b + y) <==> if a == b then BytesLe(x, y) else BytesLe(a, b)
  {
    if a == [] {
      assert a + x == x && b + y == y;
    } else {
      assert (a + x)[1..] == a[1..] + x && (b + y)[1..] == b[1..] + y;
      ConcatOrder(a[1..], x, b[1..], y);
      assert a == [a[0]] + a[1..] && b == [b[0]] + b[1..];
    }
  }

  /** Big-endian bytes sort like the numbers they encode. */
  lemma {:induction false} BigEndianOrder(m: nat, n: nat, k: nat)
    requires m < Pow256(k) && n < Pow256(k)
    ensures BytesLe(BigEndian(m, k), BigEndian(n, k)) <==> m <= n
  {
    if k > 0 {
      BigEndianOrder(m / 256, n / 256, k - 1);
      BigEndianRoundTrip(m / 256, k - 1);
      BigEndianRoundTrip(n / 256, k - 1);
      ConcatOrder(BigEndian(m / 256, k - 1), [m % 256], BigEndian(n / 256, k - 1), [n % 256]);
    }
  }

  /** The assignment iterator visits rounds in time order and, within a round, domains in string order. */
  lemma AssignmentIterationOrder(a: AssignmentId, b: AssignmentId)
    requires IsRound(a.round) && IsRound(b.round)
    ensures BytesLe(AssignmentKey(a), AssignmentKey(b))
            <==> a.round < b.round || (a.round == b.round && LexLe(a.domain, b.domain))
  {
    RoundOrder(a.round, b.round);
    ConcatOrder(RoundKey(a.round), Raw(a.domain), RoundKey(b.round), Raw(b.domain));
    RawOrder(a.domain, b.domain);
    if RoundKey(a.round) == RoundKey(b.round) { RoundKeyInjective(a.round, b.round); }
  }

  lemma RoundOrder(a: int, b: int)
    requires IsRound(a) && IsRound(b)
    ensures BytesLe(RoundKey(a), RoundKey(b)) <==> a <= b
  {
    RoundKeyIs(a);
    RoundKeyIs(b);
    BigEndianOrder(a, b, 8);
  }

  lemma Pow256Eight()
    ensures Pow256(8) == TWO_64
  {
    assert Pow256(2) == 65536;
    assert Pow256(4) == 256 * 256 * Pow256(2);
    assert Pow256(6) == 256 * 256 * Pow256(4);
  }
}
