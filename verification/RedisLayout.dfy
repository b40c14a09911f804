/**
 How the Redis catalog service lays out the members of its shards, and how the init task is told
 which members are masters and which are slaves (catalog/redis/rediscatalog.go).
 */
module RedisLayout {
  import opened Text
  import opened Naming
  import opened Grid

  /** The settings that the generated member.conf carries. */
  datatype MemberConf = MemberConf(
    zone: string, memberHost: string, indexInShard: nat, bindIP: string, staticIP: string, masterMember: string)

  datatype ReplicaConfig = ReplicaConfig(zone: string, memberName: string, conf: MemberConf)

  /** What a generation run is given; the domain is the default one of the cluster. */
  datatype Plan = Plan(platform: string, service: string, domain: string, azs: seq<string>, shards: nat, perShard: nat)

  function GenServiceShardMemberName(service: string, perShard: nat, shard: nat, i: nat): string {
    GenServiceMemberName(service, Num(perShard, shard, i))
  }

  ghost function Host(p: Plan, shard: nat, i: nat): (host: string)
    ensures host != ""
  {
    GenDNSName(GenServiceShardMemberName(p.service, p.perShard, shard, i), p.domain)
  }

  ghost function Replica(p: Plan, shard: nat, i: nat): ReplicaConfig
    requires |p.azs| > 0
  {
    var zone, host := p.azs[(shard + i) % |p.azs|], Host(p, shard, i);
    ReplicaConfig(zone, GenServiceShardMemberName(p.service, p.perShard, shard, i),
                  MemberConf(zone, host, i, if p.platform == PLATFORM_SWARM then BIND_ALL_IP else host, "",
                             Host(p, shard, 0)))
  }

  ghost function ReplicaOf(p: Plan): (nat, nat) -> ReplicaConfig
    requires |p.azs| > 0
  {
    (shard: nat, i: nat) => Replica(p, shard, i)
  }

  /** The members of the first n shards, shard by shard. */
  ghost function Layout(p: Plan, n: nat): seq<ReplicaConfig>
    requires |p.azs| > 0
  {
    Rows(ReplicaOf(p), n, p.perShard)
  }

  method GenReplicaConfigs(platform: string, cluster: string, service: string, azs: seq<string>, shards: nat, perShard: nat)
    returns (cs: seq<ReplicaConfig>)
    requires |azs| > 0
    ensures cs == Layout(Plan(platform, service, GenDefaultDomainName(cluster), azs, shards, perShard), shards)
  {
    var domain := GenDefaultDomainName(cluster);
    ghost var p := Plan(platform, service, domain, azs, shards, perShard);
    cs := [];
    hide Replica, FormatInt;
    for shard := 0 to shards
      invariant cs == Layout(p, shard)
    {
      var masterMember := GenServiceShardMemberName(service, perShard, shard, 0);
      var masterMemberHost := GenDNSName(masterMember, domain);
      for i := 0 to perShard
        invariant cs == Layout(p, shard) + Row(ReplicaOf(p), shard, i)
      {
        var c := GenReplicaConfig(platform, domain, service, azs, shards, perShard, shard, i, masterMemberHost);
        assert c == ReplicaOf(p)(shard, i);
        cs := cs + [c];
      }
    }
  }

  /** The body of the inner loop: one replica. */
  method GenReplicaConfig(platform: string, domain: string, service: string, azs: seq<string>, shards: nat, perShard: nat,
                          shard: nat, i: nat, masterMemberHost: string)
    returns (c: ReplicaConfig)
    requires |azs| > 0
    requires masterMemberHost == Host(Plan(platform, service, domain, azs, shards, perShard), shard, 0)
    ensures c == Replica(Plan(platform, service, domain, azs, shards, perShard), shard, i)
  {
    var azIndex := (shard + i) % |azs|;
    var member := GenServiceShardMemberName(service, perShard, shard, i);
    var memberHost := GenDNSName(member, domain);
    var bindIP := memberHost;
    if platform == PLATFORM_SWARM {
      bindIP := BIND_ALL_IP;
    }
    var conf := MemberConf(azs[azIndex], memberHost, i, bindIP, "", masterMemberHost);
    c := ReplicaConfig(azs[azIndex], member, conf);
  }

  // ---------------------------------------------------------------- numbering

  ghost predicate IsMember(perShard: nat, shards: nat, k: int) {
    exists shard, i :: 0 <= shard < shards && 0 <= i < perShard && Num(perShard, shard, i) == k
  }

  /** (shard, index) to member number is a bijection onto 0 .. shards * perShard. */
  lemma MemberNumbers(perShard: nat, shards: nat)
    ensures forall shard, i :: 0 <= shard < shards && 0 <= i < perShard ==> Num(perShard, shard, i) < shards * perShard
    ensures forall shard: nat, i: nat, shard': nat, i': nat ::
              (i < perShard && i' < perShard && Num(perShard, shard, i) == Num(perShard, shard', i'))
              ==> shard == shard' && i == i'
    ensures forall k :: 0 <= k < shards * perShard ==> IsMember(perShard, shards, k)
  {
    forall shard, i | 0 <= shard < shards && 0 <= i < perShard ensures Num(perShard, shard, i) < shards * perShard {
      NumBounds(perShard, shards, shard, i);
    }
    forall shard: nat, i: nat, shard': nat, i': nat
      | i < perShard && i' < perShard && Num(perShard, shard, i) == Num(perShard, shard', i')
      ensures shard == shard' && i == i'
    {
      NumInjective(perShard, shard, i, shard', i');
    }
    forall k: nat | k < shards * perShard ensures IsMember(perShard, shards, k)
    {
      var shard, i := NumSurjective(perShard, shards, k);
      assert Num(perShard, shard, i) == k;
    }
  }

  /** The config of the i-th member of a shard stands at the member's number. */
  lemma LayoutAt(p: Plan, shard: nat, i: nat)
    requires |p.azs| > 0 && shard < p.shards && i < p.perShard
    ensures |Layout(p, p.shards)| == p.shards * p.perShard
    ensures Num(p.perShard, shard, i) < |Layout(p, p.shards)|
    ensures Layout(p, p.shards)[Num(p.perShard, shard, i)] == Replica(p, shard, i)
  {
    RowsLength(ReplicaOf(p), p.shards, p.perShard);
    RowsAt(ReplicaOf(p), p.shards, p.perShard, shard, i);
  }

  /** The k-th generated member is named service-k, however the members are split into shards. */
  lemma MemberNamesAreSequential(p: Plan, k: nat)
    requires |p.azs| > 0 && k < |Layout(p, p.shards)|
    ensures Layout(p, p.shards)[k].memberName == GenServiceMemberName(p.service, k)
    ensures forall j :: 0 <= j < |Layout(p, p.shards)| && j != k ==> Layout(p, p.shards)[j].memberName != Layout(p, p.shards)[k].memberName
  {
    RowsLength(ReplicaOf(p), p.shards, p.perShard);
    forall j | 0 <= j < |Layout(p, p.shards)| ensures Layout(p, p.shards)[j].memberName == GenServiceMemberName(p.service, j) {
      var shard, i := NumSurjective(p.perShard, p.shards, j);
      LayoutAt(p, shard, i);
    }
    forall j | 0 <= j < |Layout(p, p.shards)| && j != k
      ensures GenServiceMemberName(p.service, j) != GenServiceMemberName(p.service, k)
    {
      if GenServiceMemberName(p.service, j) == GenServiceMemberName(p.service, k) {
        MemberNameInjective(p.service, j, p.service, k);
        assert false;
      }
    }
  }

  // ---------------------------------------------------------------- the init task

  ghost function MasterOf(p: Plan): (nat, nat) -> string { (shard: nat, i: nat) => Host(p, shard, 0) }

  ghost function SlaveOf(p: Plan): (nat, nat) -> string { (shard: nat, i: nat) => Host(p, shard, i + 1) }

  /** The first member of each shard. */
  ghost function MasterHosts(p: Plan, n: nat): seq<string> { Rows(MasterOf(p), n, 1) }

  /** The other members of each shard. */
  ghost function SlaveHosts(p: Plan, n: nat): seq<string>
    requires p.perShard > 0
  {
    Rows(SlaveOf(p), n, p.perShard - 1)
  }

  /** One more item in a separated list that starts empty. */
  function Append(acc: string, item: string): string {
    if |acc| == 0 then acc + item else acc + "," + item
  }

  lemma AppendIsJoin(items: seq<string>, item: string)
    requires forall i :: 0 <= i < |items| ==> items[i] != ""
    ensures Append(Join(items, ','), item) == Join(items + [item], ',')
  {
    if items != [] {
      assert items[0] != "";
      JoinSnoc(items, item, ',');
    }
  }

  /** The masters and slaves values of the init task's environment. ValidateRequest asks for at least one replica per shard. */
  method GenInitTaskEnv(service: string, cluster: string, shards: nat, perShard: nat)
    returns (masters: string, slaves: string)
    requires perShard > 0
    ensures var p := Plan("", service, GenDefaultDomainName(cluster), [], shards, perShard);
            masters == Join(MasterHosts(p, shards), ',') && slaves == Join(SlaveHosts(p, shards), ',')
  {
    var domain := GenDefaultDomainName(cluster);
    ghost var p := Plan("", service, domain, [], shards, perShard);
    masters, slaves := "", "";
    for shard := 0 to shards
      invariant masters == Join(MasterHosts(p, shard), ',')
      invariant slaves == Join(SlaveHosts(p, shard), ',')
    {
      masters, slaves := AddShard(p, service, domain, perShard, shard, masters, slaves);
    }
  }

  /** The inner loop: the members of one shard. */
  method AddShard(ghost p: Plan, service: string, domain: string, perShard: nat, shard: nat, masters0: string, slaves0: string)
    returns (masters: string, slaves: string)
    requires perShard > 0 && p.service == service && p.domain == domain && p.perShard == perShard
    requires masters0 == Join(MasterHosts(p, shard), ',') && slaves0 == Join(SlaveHosts(p, shard), ',')
    ensures masters == Join(MasterHosts(p, shard + 1), ',') && slaves == Join(SlaveHosts(p, shard + 1), ',')
  {
    masters, slaves := masters0, slaves0;
    ghost var before, f := SlaveHosts(p, shard), SlaveOf(p);
    assert before + Row(f, shard, 0) == before;
    for i := 0 to perShard
      invariant masters == if i == 0 then masters0 else Join(MasterHosts(p, shard + 1), ',')
      invariant slaves == Join(before + Row(f, shard, if i == 0 then 0 else i - 1), ',')
    {
      var member := GenServiceShardMemberName(service, perShard, shard, i);
      var memberHost := GenDNSName(member, domain);
      assert memberHost == Host(p, shard, i);
      if i == 0 {
        MasterStep(p, shard);
        masters := Append(masters, memberHost);
      } else {
        SlaveStep(p, shard, i);
        slaves := Append(slaves, memberHost);
      }
    }
  }

  lemma MasterStep(p: Plan, shard: nat)
    ensures Append(Join(MasterHosts(p, shard), ','), Host(p, shard, 0)) == Join(MasterHosts(p, shard + 1), ',')
  {
    var f := MasterOf(p);
    RowsAll(f, shard, 1, h => h != "");
    assert f(shard, 0) == Host(p, shard, 0);
    AppendIsJoin(Rows(f, shard, 1), f(shard, 0));
    assert Row(f, shard, 1) == [f(shard, 0)];
  }

  lemma SlaveStep(p: Plan, shard: nat, i: nat)
    requires 1 <= i < p.perShard
    ensures Append(Join(SlaveHosts(p, shard) + Row(SlaveOf(p), shard, i - 1), ','), Host(p, shard, i))
            == Join(SlaveHosts(p, shard) + Row(SlaveOf(p), shard, i), ',')
  {
    var f := SlaveOf(p);
    var before, done := Rows(f, shard, p.perShard - 1), Row(f, shard, i - 1);
    RowsAll(f, shard, p.perShard - 1, h => h != "");
    forall j | 0 <= j < i - 1 ensures done[j] != "" { RowAt(f, shard, i - 1, j); }
    assert f(shard, i - 1) == Host(p, shard, i);
    AppendIsJoin(before + done, f(shard, i - 1));
    assert before + done + [f(shard, i - 1)] == before + Row(f, shard, i);
  }

  lemma HostHasNoComma(p: Plan, shard: nat, i: nat)
    requires ',' !in p.service && ',' !in p.domain
    ensures ',' !in Host(p, shard, i)
  {
    HostIsFree(p.service, Num(p.perShard, shard, i), p.domain, ',');
  }

  lemma EnvHostsAreFree(p: Plan)
    requires ',' !in p.service && ',' !in p.domain
    ensures forall shard: nat, i: nat :: ',' !in MasterOf(p)(shard, i)
    ensures forall shard: nat, i: nat :: ',' !in SlaveOf(p)(shard, i)
  {
    forall shard: nat, i: nat ensures ',' !in MasterOf(p)(shard, i) { HostHasNoComma(p, shard, 0); }
    forall shard: nat, i: nat ensures ',' !in SlaveOf(p)(shard, i) { HostHasNoComma(p, shard, i + 1); }
  }

  /** The entry of the masters list for a shard is the first member's host. */
  lemma MasterEntry(p: Plan, shard: nat)
    requires shard < p.shards && ',' !in p.service && ',' !in p.domain
    ensures var masters := Split(Join(MasterHosts(p, p.shards), ','), ',');
            |masters| == p.shards && masters[shard] == Host(p, shard, 0)
  {
    EnvHostsAreFree(p);
    SplitRowsAt(MasterOf(p), p.shards, 1, ',', shard, 0);
    assert Num(1, shard, 0) == shard;
    assert MasterOf(p)(shard, 0) == Host(p, shard, 0);
  }

  /** Every other member of the shard has its own entry in the slaves list. */
  lemma SlaveEntry(p: Plan, shard: nat, i: nat)
    requires shard < p.shards && 1 <= i < p.perShard && ',' !in p.service && ',' !in p.domain
    ensures var slaves, k := Split(Join(SlaveHosts(p, p.shards), ','), ','), Num(p.perShard - 1, shard, i - 1);
            |slaves| == p.shards * (p.perShard - 1) && k < |slaves| && slaves[k] == Host(p, shard, i)
  {
    hide Host, GenDefaultDomainName, FormatInt, Split, Join;
    EnvHostsAreFree(p);
    SplitRowsAt(SlaveOf(p), p.shards, p.perShard - 1, ',', shard, i - 1);
  }

  lemma NoSlaves(p: Plan)
    requires p.perShard == 1
    ensures Join(SlaveHosts(p, p.shards), ',') == ""
  {
    RowsLength(SlaveOf(p), p.shards, 0);
  }

  lemma ConfHosts(p: Plan, shard: nat, i: nat)
    requires |p.azs| > 0
    ensures Replica(p, shard, i).conf.memberHost == Host(p, shard, i)
    ensures Replica(p, shard, i).conf.masterMember == Host(p, shard, 0)
  {
  }

  /**
   The masters and slaves lists partition the generated members: the first member of a shard stands
   at the shard's place in the masters list, every other member has its own place in the slaves list,
   the lists are exactly as long as that needs, and every member's MASTER_MEMBER is its shard's master.
   */
  lemma MastersAndSlaves(p: Plan, shard: nat, i: nat)
    requires |p.azs| > 0 && shard < p.shards && i < p.perShard
    requires ',' !in p.service && ',' !in p.domain
    ensures Num(p.perShard, shard, i) < |Layout(p, p.shards)|
    ensures var conf := Layout(p, p.shards)[Num(p.perShard, shard, i)].conf;
            var masters := Split(Join(MasterHosts(p, p.shards), ','), ',');
            && |masters| == p.shards
            && conf.masterMember == masters[shard]
            && (i == 0 ==> conf.memberHost == masters[shard])
            && (i > 0 ==>
                  var slaves, k := Split(Join(SlaveHosts(p, p.shards), ','), ','), Num(p.perShard - 1, shard, i - 1);
                  |slaves| == p.shards * (p.perShard - 1) && k < |slaves| && conf.memberHost == slaves[k])
    ensures p.perShard == 1 ==> Join(SlaveHosts(p, p.shards), ',') == ""
  {
    LayoutAt(p, shard, i);
    ConfHosts(p, shard, i);
    MasterEntry(p, shard);
    if i > 0 { SlaveEntry(p, shard, i); }
    if p.perShard == 1 { NoSlaves(p); }
  }

  // ---------------------------------------------------------------- availability zones

  /** How many of the first n shards have their master in the zone. */
  ghost function MastersIn(p: Plan, n: nat, zone: string): nat
    requires |p.azs| > 0
  {
    if n == 0 then 0
    else MastersIn(p, n - 1, zone) + One(Replica(p, n - 1, 0).zone == zone)
  }

  ghost function ZoneIndex(p: Plan, shard: nat, i: nat): (a: nat)
    requires |p.azs| > 0
    ensures a < |p.azs|
  {
    (shard + i) % |p.azs|
  }

  lemma ZoneOf(p: Plan, shard: nat, i: nat)
    requires |p.azs| > 0
    ensures Replica(p, shard, i).zone == p.azs[ZoneIndex(p, shard, i)]
  {
  }

  lemma MasterZone(p: Plan, shard: nat, a: nat)
    requires |p.azs| > 0 && Distinct(p.azs) && a < |p.azs|
    ensures Replica(p, shard, 0).zone == p.azs[a] <==> a == shard % |p.azs|
  {
    ZoneOf(p, shard, 0);
  }

  lemma {:induction false} MastersInClosed(p: Plan, n: nat, a: nat)
    requires |p.azs| > 0 && Distinct(p.azs) && a < |p.azs|
    ensures MastersIn(p, n, p.azs[a]) == n / |p.azs| + One(a < n % |p.azs|)
  {
    hide Replica;
    if n == 0 {
      DivModUnique(0, |p.azs|, 0, 0);
    } else {
      MastersInClosed(p, n - 1, a);
      Tally(n - 1, |p.azs|, a);
      MasterZone(p, n - 1, a);
    }
  }

  /** The numbers of masters in any two availability zones differ by at most one. */
  lemma MastersAreBalanced(p: Plan, a: nat, b: nat)
    requires Distinct(p.azs) && a < |p.azs| && b < |p.azs|
    ensures -1 <= MastersIn(p, p.shards, p.azs[a]) - MastersIn(p, p.shards, p.azs[b]) <= 1
  {
    MastersInClosed(p, p.shards, a);
    MastersInClosed(p, p.shards, b);
  }

  ghost predicate Spread(p: Plan, shard: nat)
    requires |p.azs| > 0
  {
    forall i, j :: 0 <= i < j < p.perShard ==> Replica(p, shard, i).zone != Replica(p, shard, j).zone
  }

  /** The replicas of a shard sit in pairwise distinct zones exactly when there are at least as many zones as replicas. */
  lemma ReplicasAreSpread(p: Plan, shard: nat)
    requires |p.azs| > 0 && Distinct(p.azs)
    ensures Spread(p, shard) <==> p.perShard <= |p.azs|
  {
    if p.perShard <= |p.azs| {
      forall i, j | 0 <= i < j < p.perShard ensures Replica(p, shard, i).zone != Replica(p, shard, j).zone {
        ShiftedModDiffers(shard, i, j, |p.azs|);
      }
    } else {
      ShiftedModWraps(shard, |p.azs|);
      assert Replica(p, shard, 0).zone == Replica(p, shard, |p.azs|).zone;
    }
  }

  // ---------------------------------------------------------------- member.conf

  /** What member number k is told: its zone and host, its place in the shard, where to listen; the master is its own host exactly at place 0. */
  lemma MemberSettings(p: Plan, k: nat)
    requires |p.azs| > 0 && k < p.shards * p.perShard
    ensures k < |Layout(p, p.shards)|
    ensures var c := Layout(p, p.shards)[k];
            && c.zone == c.conf.zone && c.zone in p.azs && c.conf.memberHost == c.memberName + "." + p.domain
            && c.conf.indexInShard == k % p.perShard && c.conf.staticIP == ""
            && (c.conf.masterMember == c.conf.memberHost <==> k % p.perShard == 0)
            && c.conf.bindIP == if p.platform == "swarm" then "0.0.0.0" else c.conf.memberHost
  {
    var shard, i := NumSurjective(p.perShard, p.shards, k);
    LayoutAt(p, shard, i);
    DivModUnique(k, p.perShard, shard, i);
    if i != 0 && Host(p, shard, i) == Host(p, shard, 0) {
      DNSNameInjective(GenServiceShardMemberName(p.service, p.perShard, shard, i),
                       GenServiceShardMemberName(p.service, p.perShard, shard, 0), p.domain);
      MemberNameInjective(p.service, Num(p.perShard, shard, i), p.service, Num(p.perShard, shard, 0));
    }
  }
}
