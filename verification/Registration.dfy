// Publisher registration and re-registration requests (x/registry/msg_server.go, keeper.go).
module Registration {
  import opened Base
  import opened Text
  import opened Domains
  import opened ChainState
  import C = CommitHash

  /**
   * The part of MsgRegisterPublisher that the chain acts on. shortOk sums up the length and address checks on
   * metadata, proof and verifier; uriOk the parsing of the metadata URI, which only a new website undergoes.
   */
  datatype RegisterMsg = RegisterMsg(owner: string, domain: string, referrer: string, shortOk: bool, uriOk: bool)

  /** The website records and the index from primary domain to registered domain. */
  datatype Sites = Sites(websites: map<string, Website>, primary: map<string, string>)

  predicate WellFormed(m: RegisterMsg) {
    && IsAddress(m.owner) && Trim(m.domain) != "" && m.shortOk
    && (Trim(m.referrer) != "" ==> IsAddress(Trim(m.referrer)))
  }

  function NewSite(m: RegisterMsg, height: int): Website {
    Website(m.owner, Pending, Trim(m.referrer), height, 0, 0, "", "")
  }

  function RegisterPublisher(r: Sites, env: Env, height: int, m: RegisterMsg): Result<Sites, Error> {
    var domain := C.Normalize(m.domain);
    if !WellFormed(m) then Err(Invalid)
    else if domain in r.websites then
      var w := r.websites[domain];
      if w.pendingOwner != "" && m.owner != w.pendingOwner && m.owner != w.owner then Err(Duplicate)
      else Ok(r.(websites := r.websites[domain := w.(pendingOwner := m.owner, pendingReferrer := Trim(m.referrer))]))
    else if domain == "" || !env.validDomain(domain) || !m.uriOk then Err(Invalid)
    else if env.primaryOf(domain) in r.primary then Err(Duplicate)
    else Ok(Sites(r.websites[domain := NewSite(m, height)], r.primary[env.primaryOf(domain) := domain]))
  }

  /** The index maps each primary domain to its one website, and every website is indexed. */
  ghost predicate IndexOk(r: Sites, env: Env) {
    && (forall p :: p in r.primary ==> r.primary[p] in r.websites && env.primaryOf(r.primary[p]) == p)
    && (forall d :: d in r.websites ==> env.primaryOf(d) in r.primary && r.primary[env.primaryOf(d)] == d)
  }

  /** At most one website per primary domain. */
  lemma OnePerPrimary(r: Sites, env: Env, a: string, b: string)
    requires IndexOk(r, env) && a in r.websites && b in r.websites && env.primaryOf(a) == env.primaryOf(b)
    ensures a == b
  {
  }

  lemma RegisterKeepsIndex(r: Sites, env: Env, height: int, m: RegisterMsg)
    requires IndexOk(r, env) && RegisterPublisher(r, env, height, m).Ok?
    ensures IndexOk(RegisterPublisher(r, env, height, m).value, env)
  {
  }

  /** A registration message never changes the owner, referrer, status or cooldown of a registered website. */
  lemma RegisterKeepsRegistered(r: Sites, env: Env, height: int, m: RegisterMsg, d: string)
    requires d in r.websites && RegisterPublisher(r, env, height, m).Ok?
    ensures var t := RegisterPublisher(r, env, height, m).value;
      && d in t.websites
      && t.websites[d].(pendingOwner := r.websites[d].pendingOwner, pendingReferrer := r.websites[d].pendingReferrer)
         == r.websites[d]
  {
  }

  /** A stranger cannot replace a pending candidate; the owner and the candidate itself can. */
  lemma PendingCandidateProtected(r: Sites, env: Env, height: int, m: RegisterMsg)
    requires C.Normalize(m.domain) in r.websites && WellFormed(m)
    ensures var w := r.websites[C.Normalize(m.domain)];
      RegisterPublisher(r, env, height, m).Ok? <==> w.pendingOwner == "" || m.owner in {w.pendingOwner, w.owner}
  {
  }

  /**
   * A request for a new domain succeeds if and only if it is well formed, the domain is valid and its primary domain is
   * free; the website starts pending, owned by the sender, and is indexed. A request for a registered domain only names
   * the sender and its referrer as the pending candidate.
   */
  lemma RegisteredExact(r: Sites, env: Env, height: int, m: RegisterMsg)
    ensures var d, referrer := Trim(Lower(m.domain)), Trim(m.referrer);
      && (d !in r.websites ==>
            (RegisterPublisher(r, env, height, m).Ok? <==>
               && IsAddress(m.owner) && Trim(m.domain) != "" && m.shortOk && m.uriOk && (referrer == "" || IsAddress(referrer))
               && d != "" && env.validDomain(d) && env.primaryOf(d) !in r.primary))
      && (RegisterPublisher(r, env, height, m).Ok? ==>
            RegisterPublisher(r, env, height, m).value
            == if d in r.websites
               then r.(websites := r.websites[d := r.websites[d].(pendingOwner := m.owner, pendingReferrer := referrer)])
               else Sites(r.websites[d := Website(m.owner, Pending, referrer, height, 0, 0, "", "")],
                          r.primary[env.primaryOf(d) := d]))
  {
  }
}
