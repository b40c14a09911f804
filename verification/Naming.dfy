/**
 Member names and DNS names (pkg/utils/utils.go, pkg/dns/utils.go).
 */
module Naming {
  import opened Text

  const SEP: char := '-'

  const PLATFORM_SWARM := "swarm"
  const BIND_ALL_IP := "0.0.0.0"

  function GenServiceMemberName(serviceName: string, index: int): string {
    serviceName + [SEP] + FormatInt(index)
  }

  function GenDNSName(memberName: string, domainName: string): string {
    memberName + "." + domainName
  }

  function GenDefaultDomainName(cluster: string): string {
    cluster + "-" + "firecamp" + "." + "com"
  }

  function MemberHost(serviceName: string, index: int, domain: string): (host: string)
    ensures host != ""
  {
    GenDNSName(GenServiceMemberName(serviceName, index), domain)
  }

  lemma MemberNameInjective(s: string, i: nat, s': string, i': nat)
    requires GenServiceMemberName(s, i) == GenServiceMemberName(s', i')
    ensures s == s' && i == i'
  {
    NatChars(i, SEP);
    NatChars(i', SEP);
    CutLast(s, FormatNat(i), s', FormatNat(i'), SEP);
    FormatNatInjective(i, i');
  }

  lemma DNSNameInjective(m: string, m': string, domain: string)
    requires GenDNSName(m, domain) == GenDNSName(m', domain)
    ensures m == m'
  {
    assert m == GenDNSName(m, domain)[..|m|];
    assert m' == GenDNSName(m', domain)[..|m'|];
  }

  lemma HostIsFree(serviceName: string, index: nat, domain: string, c: char)
    requires c !in serviceName && c !in domain && c in {',', ';'}
    ensures c !in MemberHost(serviceName, index, domain)
  {
    NatChars(index, c);
  }
}
