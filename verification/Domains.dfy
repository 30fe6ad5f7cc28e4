// Domain names and account addresses as the chain validates them (x/registry/types.go, domainRe).
module Domains {
  import opened Text

  predicate Alnum(c: char) {
    'a' <= c <= 'z' || '0' <= c <= '9'
  }

  /** [a-z0-9](?:[a-z0-9-]{0,61}[a-z0-9])? */
  predicate Label(s: string) {
    && 1 <= |s| <= 63
    && Alnum(s[0]) && Alnum(s[|s| - 1])
    && forall i :: 0 <= i < |s| ==> Alnum(s[i]) || s[i] == '-'
  }

  /** [a-z]{2,} */
  predicate TopLevel(s: string) {
    |s| >= 2 && forall i :: 0 <= i < |s| ==> 'a' <= s[i] <= 'z'
  }

  /** (?::\d+)? */
  predicate Port(s: string) {
    s == "" || (|s| >= 2 && s[0] == ':' && forall i :: 1 <= i < |s| ==> '0' <= s[i] <= '9')
  }

  /** Each label followed by a dot. */
  function Dotted(labels: seq<string>): string {
    if labels == [] then "" else labels[0] + "." + Dotted(labels[1..])
  }

  /** The string is matched by domainRe: one or more dotted labels, a top level, an optional port. */
  ghost predicate ValidDomain(s: string) {
    exists labels: seq<string>, tld: string, port: string ::
      && labels != []
      && (forall i :: 0 <= i < |labels| ==> Label(labels[i]))
      && TopLevel(tld) && Port(port)
      && s == Dotted(labels) + tld + port
  }

  predicate DomainChar(c: char) {
    Alnum(c) || c == '-' || c == '.' || c == ':'
  }

  predicate DomainText(s: string) {
    forall i :: 0 <= i < |s| ==> DomainChar(s[i])
  }

  lemma {:induction false} DottedText(labels: seq<string>)
    requires forall i :: 0 <= i < |labels| ==> Label(labels[i])
    ensures DomainText(Dotted(labels))
  {
    if labels != [] { DottedText(labels[1..]); }
  }

  /** A valid domain is plain text with at least one dot and starts with a letter or digit. */
  lemma ValidDomainText(s: string)
    requires ValidDomain(s)
    ensures DomainText(s) && '.' in s && s != "" && Alnum(s[0])
  {
    var labels, tld, port :|
      && labels != []
      && (forall i :: 0 <= i < |labels| ==> Label(labels[i]))
      && TopLevel(tld) && Port(port)
      && s == Dotted(labels) + tld + port;
    DottedText(labels);
    assert DomainText(tld) && DomainText(port);
    assert Label(labels[0]) && Dotted(labels) == labels[0] + "." + Dotted(labels[1..]);
    assert s[|labels[0]|] == '.' && s[0] == labels[0][0];
  }

  /** Bech32 text; the checksum is not modelled. */
  predicate IsAddress(a: string) {
    a != "" && forall i :: 0 <= i < |a| ==> Alnum(LowerChar(a[i]))
  }
}
