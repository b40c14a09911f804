/**
 How the Cassandra catalog service lays out its members and names its seeds
 (catalog/cassandra/cascatalog.go). A scale-out generates the layout again, for more replicas.
 */
module CassandraLayout {
  import opened Text
  import opened Naming
  import opened Grid

  /** The settings that the generated member.conf carries. */
  datatype MemberConf = MemberConf(zone: string, memberHost: string, rpcAddress: string)

  datatype ReplicaConfig = ReplicaConfig(zone: string, memberName: string, conf: MemberConf)

  datatype Plan = Plan(platform: string, service: string, domain: string, azs: seq<string>)

  ghost function Replica(p: Plan, i: nat): ReplicaConfig
    requires |p.azs| > 0
  {
    var zone, host := p.azs[i % |p.azs|], MemberHost(p.service, i, p.domain);
    ReplicaConfig(zone, GenServiceMemberName(p.service, i),
                  MemberConf(zone, host, if p.platform == PLATFORM_SWARM then BIND_ALL_IP else host))
  }

  /** The layout of n replicas. */
  ghost function Layout(p: Plan, n: nat): (cs: seq<ReplicaConfig>)
    requires |p.azs| > 0
    ensures |cs| == n
  {
    if n == 0 then [] else Layout(p, n - 1) + [Replica(p, n - 1)]
  }

  method GenReplicaConfigs(platform: string, cluster: string, service: string, azs: seq<string>, replicas: nat)
    returns (cs: seq<ReplicaConfig>)
    requires |azs| > 0
    ensures cs == Layout(Plan(platform, service, GenDefaultDomainName(cluster), azs), replicas)
  {
    hide GenServiceMemberName, GenDNSName;
    var domain := GenDefaultDomainName(cluster);
    ghost var p := Plan(platform, service, domain, azs);
    cs := [];
    for i := 0 to replicas
      invariant cs == Layout(p, i)
    {
      var member := GenServiceMemberName(service, i);
      var memberHost := GenDNSName(member, domain);
      var rpcAddr := memberHost;
      if platform == PLATFORM_SWARM {
        rpcAddr := BIND_ALL_IP;
      }
      var index := i % |azs|;
      cs := cs + [ReplicaConfig(azs[index], member, MemberConf(azs[index], memberHost, rpcAddr))];
    }
  }

  ghost function SeedHosts(p: Plan, n: nat): seq<string> {
    if n == 0 then [] else SeedHosts(p, n - 1) + [MemberHost(p.service, n - 1, p.domain)]
  }

  function SeedCount(azs: nat, replicas: nat): nat { if azs > replicas then replicas else azs }

  /** The hosts of the first members, one per availability zone, joined by commas. */
  method GenSeedHosts(azCount: nat, replicas: nat, service: string, domain: string, ghost p: Plan) returns (seedHost: string)
    requires service == p.service && domain == p.domain
    ensures seedHost == Join(SeedHosts(p, SeedCount(azCount, replicas)), ',')
  {
    hide GenServiceMemberName, GenDNSName, MemberHost;
    var seedCount := azCount;
    if seedCount > replicas {
      seedCount := replicas;
    }
    seedHost := "";
    for i := 0 to seedCount
      invariant seedHost == Join(SeedHosts(p, i), ',') + if 0 < i < seedCount then "," else ""
    {
      var host := MemberHost(service, i, domain);
      ghost var before := SeedHosts(p, i);
      if i > 0 {
        SeedsLength(p, i);
        JoinSnoc(before, host, ',');
      }
      if i == seedCount - 1 {
        seedHost := seedHost + host;
      } else {
        seedHost := seedHost + host + ",";
      }
    }
  }

  lemma {:induction false} SeedsLength(p: Plan, n: nat)
    ensures |SeedHosts(p, n)| == n
  {
    hide MemberHost;
    if n > 0 { SeedsLength(p, n - 1); }
  }

  // ---------------------------------------------------------------- results

  lemma {:induction false} LayoutAt(p: Plan, n: nat, i: nat)
    requires |p.azs| > 0 && i < n
    ensures Layout(p, n)[i] == Replica(p, i)
  {
    hide Replica;
    if i < n - 1 { LayoutAt(p, n - 1, i); }
  }

  /** The layout for n replicas is the beginning of the layout for more: a scale-out changes no member there is. */
  lemma LayoutIsPrefix(p: Plan, n: nat, m: nat)
    requires |p.azs| > 0 && n <= m
    ensures Layout(p, n) == Layout(p, m)[..n]
  {
    hide Replica;
    forall i | 0 <= i < n ensures Layout(p, n)[i] == Layout(p, m)[i] {
      LayoutAt(p, n, i);
      LayoutAt(p, m, i);
    }
  }

  /** Member names differ. */
  lemma NamesDiffer(p: Plan, n: nat, i: nat, j: nat)
    requires |p.azs| > 0 && i < n && j < n && Layout(p, n)[i].memberName == Layout(p, n)[j].memberName
    ensures i == j
  {
    LayoutAt(p, n, i);
    LayoutAt(p, n, j);
    MemberNameInjective(p.service, i, p.service, j);
  }

  /** The members of the first n that are in the zone. */
  ghost function MembersIn(p: Plan, n: nat, zone: string): nat
    requires |p.azs| > 0
  {
    if n == 0 then 0 else MembersIn(p, n - 1, zone) + One(Layout(p, n)[n - 1].zone == zone)
  }

  lemma ZoneAt(p: Plan, n: nat, a: nat)
    requires |p.azs| > 0 && Distinct(p.azs) && a < |p.azs| && n > 0
    ensures Layout(p, n)[n - 1].zone == p.azs[a] <==> a == (n - 1) % |p.azs|
  {
    hide MemberHost, GenServiceMemberName;
    LayoutAt(p, n, n - 1);
  }

  lemma {:induction false} MembersInClosed(p: Plan, n: nat, a: nat)
    requires |p.azs| > 0 && Distinct(p.azs) && a < |p.azs|
    ensures MembersIn(p, n, p.azs[a]) == n / |p.azs| + One(a < n % |p.azs|)
  {
    hide Layout;
    if n == 0 {
      DivModUnique(0, |p.azs|, 0, 0);
    } else {
      MembersInClosed(p, n - 1, a);
      Tally(n - 1, |p.azs|, a);
      ZoneAt(p, n, a);
    }
  }

  /** At every size the numbers of members in any two availability zones differ by at most one. */
  lemma ZonesAreBalanced(p: Plan, n: nat, a: nat, b: nat)
    requires |p.azs| > 0 && Distinct(p.azs) && a < |p.azs| && b < |p.azs|
    ensures -1 <= MembersIn(p, n, p.azs[a]) - MembersIn(p, n, p.azs[b]) <= 1
  {
    MembersInClosed(p, n, a);
    MembersInClosed(p, n, b);
  }

  lemma {:induction false} SeedAt(p: Plan, n: nat, i: nat)
    requires i < n
    ensures |SeedHosts(p, n)| == n && SeedHosts(p, n)[i] == MemberHost(p.service, i, p.domain)
  {
    hide MemberHost;
    SeedsLength(p, n);
    SeedsLength(p, n - 1);
    if i < n - 1 { SeedAt(p, n - 1, i); }
  }

  lemma SeedsAreFree(p: Plan, n: nat)
    requires ',' !in p.service && ',' !in p.domain
    ensures Free(SeedHosts(p, n), ',')
  {
    SeedsLength(p, n);
    forall i | 0 <= i < n ensures ',' !in SeedHosts(p, n)[i] {
      SeedAt(p, n, i);
      HostIsFree(p.service, i, p.domain, ',');
    }
  }

  /** The seed list splits into hosts of generated members, which are in different availability zones. */
  lemma SeedsAreSpread(p: Plan, replicas: nat, i: nat, j: nat)
    requires |p.azs| > 0 && Distinct(p.azs) && ',' !in p.service && ',' !in p.domain
    requires i < j < SeedCount(|p.azs|, replicas)
    ensures var hosts := Split(Join(SeedHosts(p, SeedCount(|p.azs|, replicas)), ','), ',');
            && |hosts| == SeedCount(|p.azs|, replicas)
            && hosts[i] == Layout(p, replicas)[i].conf.memberHost && hosts[j] == Layout(p, replicas)[j].conf.memberHost
            && Layout(p, replicas)[i].zone != Layout(p, replicas)[j].zone
  {
    var n := SeedCount(|p.azs|, replicas);
    SeedsAreFree(p, n);
    SeedAt(p, n, i);
    SeedAt(p, n, j);
    LayoutAt(p, replicas, i);
    LayoutAt(p, replicas, j);
    hide MemberHost;
    SplitJoin(SeedHosts(p, n), ',');
    DivModUnique(i, |p.azs|, 0, i);
    DivModUnique(j, |p.azs|, 0, j);
  }

  /** What member number i is told: its zone and host, and where to listen. */
  lemma MemberSettings(p: Plan, n: nat, i: nat)
    requires |p.azs| > 0 && i < n
    ensures var c := Layout(p, n)[i];
            && c.zone == c.conf.zone && c.zone in p.azs && c.memberName == GenServiceMemberName(p.service, i)
            && c.conf.memberHost == c.memberName + "." + p.domain
            && c.conf.rpcAddress == if p.platform == "swarm" then "0.0.0.0" else c.conf.memberHost
  {
    LayoutAt(p, n, i);
  }
}
