/**
 The members of a MongoDB service and the lists of them that the init task is given
 (catalog/mongodb/mongodbcatalog.go).
 */
module MongoLayout {
  import opened Text
  import opened Naming
  import opened Grid

  datatype Role = EmptyRole | ConfigRole | ShardRole

  datatype ReplicaConfig = ReplicaConfig(
    zone: string, memberName: string, memberHost: string, bindIP: string, role: Role, replSetName: string)

  datatype Plan = Plan(
    platform: string, service: string, domain: string, azs: seq<string>,
    shards: nat, perShard: nat, replicaSetOnly: bool, configServers: nat)

  function GetConfigServerName(service: string): string { service + "-" + "config" }

  function GetShardName(service: string, shard: nat): string { service + "-" + "shard" + FormatInt(shard) }

  function GenReplicaConfig(platform: string, domain: string, member: string, replSetName: string, role: Role, az: string): ReplicaConfig {
    var memberHost := GenDNSName(member, domain);
    ReplicaConfig(az, member, memberHost, if platform == PLATFORM_SWARM then BIND_ALL_IP else memberHost, role, replSetName)
  }

  // ---------------------------------------------------------------- the generated members

  ghost function SetMember(p: Plan): (nat, nat) -> ReplicaConfig
    requires |p.azs| > 0
  {
    (_: nat, i: nat) =>
      GenReplicaConfig(p.platform, p.domain, GenServiceMemberName(p.service, i), p.service, EmptyRole, p.azs[i % |p.azs|])
  }

  ghost function ConfigMember(p: Plan): (nat, nat) -> ReplicaConfig
    requires |p.azs| > 0
  {
    (_: nat, i: nat) =>
      GenReplicaConfig(p.platform, p.domain, GenServiceMemberName(GetConfigServerName(p.service), i),
                       GetConfigServerName(p.service), ConfigRole, p.azs[i % |p.azs|])
  }

  ghost function ShardMember(p: Plan): (nat, nat) -> ReplicaConfig
    requires |p.azs| > 0
  {
    (shard: nat, i: nat) =>
      GenReplicaConfig(p.platform, p.domain, GenServiceMemberName(GetShardName(p.service, shard), i),
                       GetShardName(p.service, shard), ShardRole, p.azs[(shard + i) % |p.azs|])
  }

  lemma Generated(p: Plan, shard: nat, i: nat)
    requires |p.azs| > 0
    ensures SetMember(p)(0, i)
            == GenReplicaConfig(p.platform, p.domain, GenServiceMemberName(p.service, i), p.service, EmptyRole, p.azs[i % |p.azs|])
    ensures ConfigMember(p)(0, i)
            == GenReplicaConfig(p.platform, p.domain, GenServiceMemberName(GetConfigServerName(p.service), i),
                                GetConfigServerName(p.service), ConfigRole, p.azs[i % |p.azs|])
    ensures ShardMember(p)(shard, i)
            == GenReplicaConfig(p.platform, p.domain, GenServiceMemberName(GetShardName(p.service, shard), i),
                                GetShardName(p.service, shard), ShardRole, p.azs[(shard + i) % |p.azs|])
  {
    hide GenReplicaConfig, GenServiceMemberName, GetShardName, GetConfigServerName;
  }

  predicate SingleReplicaSet(shards: nat, replicaSetOnly: bool) { shards == 1 && replicaSetOnly }

  /** A single replica set, or the config servers followed by the shards, one after the other. */
  ghost function Members(p: Plan): seq<ReplicaConfig>
    requires |p.azs| > 0
  {
    if SingleReplicaSet(p.shards, p.replicaSetOnly) then Row(SetMember(p), 0, p.perShard)
    else Row(ConfigMember(p), 0, p.configServers) + Rows(ShardMember(p), p.shards, p.perShard)
  }

  method GenReplicaConfigs(p: Plan) returns (cs: seq<ReplicaConfig>)
    requires |p.azs| > 0
    ensures cs == Members(p)
  {
    hide GenReplicaConfig, FormatInt, GenServiceMemberName, GetShardName, GetConfigServerName, SetMember, ConfigMember, ShardMember;
    cs := [];
    if p.shards == 1 && p.replicaSetOnly {
      for i := 0 to p.perShard
        invariant cs == Row(SetMember(p), 0, i)
      {
        var c := GenReplicaConfig(p.platform, p.domain, GenServiceMemberName(p.service, i), p.service, EmptyRole, p.azs[i % |p.azs|]);
        assert c == SetMember(p)(0, i) by { Generated(p, 0, i); }
        cs := cs + [c];
      }
      return;
    }
    for i := 0 to p.configServers
      invariant cs == Row(ConfigMember(p), 0, i)
    {
      var configServerName := GetConfigServerName(p.service);
      var member := GenServiceMemberName(configServerName, i);
      var c := GenReplicaConfig(p.platform, p.domain, member, configServerName, ConfigRole, p.azs[i % |p.azs|]);
      assert c == ConfigMember(p)(0, i) by { Generated(p, 0, i); }
      cs := cs + [c];
    }
    ghost var configs := cs;
    for shard := 0 to p.shards
      invariant cs == configs + Rows(ShardMember(p), shard, p.perShard)
    {
      var shardName := GetShardName(p.service, shard);
      for i := 0 to p.perShard
        invariant cs == configs + Rows(ShardMember(p), shard, p.perShard) + Row(ShardMember(p), shard, i)
      {
        var member := GenServiceMemberName(shardName, i);
        var c := GenReplicaConfig(p.platform, p.domain, member, shardName, ShardRole, p.azs[(shard + i) % |p.azs|]);
        assert c == ShardMember(p)(shard, i) by { Generated(p, shard, i); }
        cs := cs + [c];
      }
    }
  }

  // ---------------------------------------------------------------- the init task's lists

  ghost function SetHost(p: Plan): (nat, nat) -> string { (_: nat, i: nat) => MemberHost(p.service, i, p.domain) }

  ghost function ConfigHost(p: Plan): (nat, nat) -> string {
    (_: nat, i: nat) => MemberHost(GetConfigServerName(p.service), i, p.domain)
  }

  ghost function ShardHost(p: Plan): (nat, nat) -> string {
    (shard: nat, i: nat) => MemberHost(GetShardName(p.service, shard), i, p.domain)
  }

  function AtLeastOne(n: nat): nat { if n == 0 then 1 else n }

  /** One comma-separated list per shard. */
  ghost function ShardLists(p: Plan, n: nat): (lists: seq<string>)
    ensures |lists| == n
    ensures forall s :: 0 <= s < n ==> lists[s] == Join(Row(ShardHost(p), s, AtLeastOne(p.perShard)), ',')
  {
    if n == 0 then [] else ShardLists(p, n - 1) + [Join(Row(ShardHost(p), n - 1, AtLeastOne(p.perShard)), ',')]
  }

  /** The hosts 0, 1, … of one replica set: the first one always, then one per further replica. */
  method JoinMembers(name: string, domain: string, n: nat, ghost f: (nat, nat) -> string, ghost row: nat) returns (members: string)
    requires forall i: nat :: f(row, i) == MemberHost(name, i, domain)
    ensures members == Join(Row(f, row, AtLeastOne(n)), ',')
  {
    members := GenDNSName(GenServiceMemberName(name, 0), domain);
    assert members == f(row, 0);
    assert Row(f, row, 1) == [] + [f(row, 0)] == [f(row, 0)];
    hide MemberHost, GenDNSName;
    for i := 1 to AtLeastOne(n)
      invariant members == Join(Row(f, row, i), ',')
    {
      var member := MemberHost(name, i, domain);
      JoinSnoc(Row(f, row, i), member, ',');
      members := members + "," + member;
    }
  }

  datatype Env = ReplicaSetEnv(members: string) | ShardedEnv(configMembers: string, shardMembers: string)

  ghost function EnvOf(p: Plan): Env {
    if SingleReplicaSet(p.shards, p.replicaSetOnly) then
      ReplicaSetEnv(Join(Row(SetHost(p), 0, AtLeastOne(p.perShard)), ','))
    else
      ShardedEnv(Join(Row(ConfigHost(p), 0, AtLeastOne(p.configServers)), ','), Join(ShardLists(p, p.shards), ';'))
  }

  method GenInitTaskEnv(p: Plan) returns (env: Env)
    ensures env == EnvOf(p)
  {
    hide MemberHost;
    if p.shards == 1 && p.replicaSetOnly {
      var members := JoinMembers(p.service, p.domain, p.perShard, SetHost(p), 0);
      return ReplicaSetEnv(members);
    }
    var configMembers := JoinMembers(GetConfigServerName(p.service), p.domain, p.configServers, ConfigHost(p), 0);
    var shardMembers := "";
    for shard := 0 to p.shards
      invariant shardMembers == Join(ShardLists(p, shard), ';')
    {
      var shardName := GetShardName(p.service, shard);
      var list := JoinMembers(shardName, p.domain, p.perShard, ShardHost(p), shard);
      if shard != 0 {
        JoinSnoc(ShardLists(p, shard), list, ';');
        shardMembers := shardMembers + ";";
      }
      shardMembers := shardMembers + list;
    }
    env := ShardedEnv(configMembers, shardMembers);
  }

  // ---------------------------------------------------------------- results

  lemma ConfigNameIsNoShardName(service: string, shard: nat)
    ensures GetConfigServerName(service) != GetShardName(service, shard)
  {
    assert GetConfigServerName(service)[|service| + 1] == 'c';
    assert GetShardName(service, shard)[|service| + 1] == 's';
  }

  lemma ShardNameInjective(service: string, a: nat, b: nat)
    requires GetShardName(service, a) == GetShardName(service, b)
    ensures a == b
  {
    var prefix := service + "-" + "shard";
    assert GetShardName(service, a)[|prefix|..] == FormatNat(a);
    assert GetShardName(service, b)[|prefix|..] == FormatNat(b);
    FormatNatInjective(a, b);
  }

  /** Where a member of a sharded cluster stands: a config server, or a place in a shard. */
  datatype Place = AConfigServer(i: nat) | AShardMember(shard: nat, i: nat)

  ghost predicate IsPlace(p: Plan, x: Place) {
    match x
    case AConfigServer(i) => i < p.configServers
    case AShardMember(shard, i) => shard < p.shards && i < p.perShard
  }

  ghost function Position(p: Plan, x: Place): nat {
    match x
    case AConfigServer(i) => i
    case AShardMember(shard, i) => p.configServers + Num(p.perShard, shard, i)
  }

  ghost function NameAt(p: Plan, x: Place): string {
    match x
    case AConfigServer(i) => GenServiceMemberName(GetConfigServerName(p.service), i)
    case AShardMember(shard, i) => GenServiceMemberName(GetShardName(p.service, shard), i)
  }

  lemma MemberAtPlace(p: Plan, x: Place)
    requires |p.azs| > 0 && !SingleReplicaSet(p.shards, p.replicaSetOnly) && IsPlace(p, x)
    ensures Position(p, x) < |Members(p)|
    ensures Members(p)[Position(p, x)] == match x
      case AConfigServer(i) => ConfigMember(p)(0, i)
      case AShardMember(shard, i) => ShardMember(p)(shard, i)
  {
    hide GenReplicaConfig, FormatInt;
    RowsLength(ShardMember(p), p.shards, p.perShard);
    match x
    case AConfigServer(i) => RowAt(ConfigMember(p), 0, p.configServers, i);
    case AShardMember(shard, i) => RowsAt(ShardMember(p), p.shards, p.perShard, shard, i);
  }

  lemma NameAtPlace(p: Plan, x: Place)
    requires |p.azs| > 0 && !SingleReplicaSet(p.shards, p.replicaSetOnly) && IsPlace(p, x)
    ensures Position(p, x) < |Members(p)|
    ensures Members(p)[Position(p, x)].memberName == NameAt(p, x)
    ensures Members(p)[Position(p, x)].memberHost == GenDNSName(NameAt(p, x), p.domain)
  {
    hide FormatInt;
    MemberAtPlace(p, x);
  }

  lemma PlaceOf(p: Plan, k: nat) returns (x: Place)
    requires k < p.configServers + p.shards * p.perShard
    ensures IsPlace(p, x) && Position(p, x) == k
  {
    if k < p.configServers {
      x := AConfigServer(k);
    } else {
      var shard, i := NumSurjective(p.perShard, p.shards, k - p.configServers);
      x := AShardMember(shard, i);
    }
  }

  lemma NameAtInjective(p: Plan, x: Place, y: Place)
    requires NameAt(p, x) == NameAt(p, y)
    ensures x == y
  {
    var s := p.service;
    match (x, y)
    case (AConfigServer(i), AConfigServer(j)) =>
      MemberNameInjective(GetConfigServerName(s), i, GetConfigServerName(s), j);
    case (AConfigServer(i), AShardMember(b, j)) =>
      MemberNameInjective(GetConfigServerName(s), i, GetShardName(s, b), j);
      ConfigNameIsNoShardName(s, b);
    case (AShardMember(a, i), AConfigServer(j)) =>
      MemberNameInjective(GetShardName(s, a), i, GetConfigServerName(s), j);
      ConfigNameIsNoShardName(s, a);
    case (AShardMember(a, i), AShardMember(b, j)) =>
      MemberNameInjective(GetShardName(s, a), i, GetShardName(s, b), j);
      ShardNameInjective(s, a, b);
  }

  lemma NumberOfMembers(p: Plan)
    requires |p.azs| > 0
    ensures |Members(p)| == if SingleReplicaSet(p.shards, p.replicaSetOnly) then p.perShard
                            else p.configServers + p.shards * p.perShard
  {
    hide GenReplicaConfig, FormatInt;
    RowsLength(ShardMember(p), p.shards, p.perShard);
  }

  lemma NamesDiffer(p: Plan, j: nat, k: nat)
    requires |p.azs| > 0
    ensures j < k < |Members(p)| ==> Members(p)[j].memberName != Members(p)[k].memberName
  {
    NumberOfMembers(p);
    if j < k < |Members(p)| {
      if SingleReplicaSet(p.shards, p.replicaSetOnly) {
        RowAt(SetMember(p), 0, p.perShard, j);
        RowAt(SetMember(p), 0, p.perShard, k);
        hide FormatInt, Members, GenServiceMemberName;
        if GenServiceMemberName(p.service, j) == GenServiceMemberName(p.service, k) {
          MemberNameInjective(p.service, j, p.service, k);
        }
      } else {
        var x := PlaceOf(p, j);
        var y := PlaceOf(p, k);
        NameAtPlace(p, x);
        NameAtPlace(p, y);
        hide Members, NameAt;
        if NameAt(p, x) == NameAt(p, y) { NameAtInjective(p, x, y); }
      }
    }
  }

  /** Generated members have pairwise distinct names. */
  lemma NamesAreDistinct(p: Plan)
    requires |p.azs| > 0
    ensures forall j, k :: 0 <= j < k < |Members(p)| ==> Members(p)[j].memberName != Members(p)[k].memberName
  {
    hide Members;
    forall j, k | 0 <= j < k < |Members(p)| ensures Members(p)[j].memberName != Members(p)[k].memberName {
      NamesDiffer(p, j, k);
    }
  }

  ghost predicate SeparatorFree(p: Plan) {
    ',' !in p.service && ';' !in p.service && ',' !in p.domain && ';' !in p.domain
  }

  lemma HostsAreFree(p: Plan, c: char)
    requires SeparatorFree(p) && c in {',', ';'}
    ensures forall r: nat, i: nat :: c !in ConfigHost(p)(r, i)
    ensures forall r: nat, i: nat :: c !in ShardHost(p)(r, i)
  {
    forall r: nat, i: nat ensures c !in ConfigHost(p)(r, i) {
      HostIsFree(GetConfigServerName(p.service), i, p.domain, c);
    }
    forall r: nat, i: nat ensures c !in ShardHost(p)(r, i) {
      NatChars(r, c);
      HostIsFree(GetShardName(p.service, r), i, p.domain, c);
    }
  }

  lemma RowIsFree(f: (nat, nat) -> string, row: nat, n: nat, c: char)
    requires forall r: nat, i: nat :: c !in f(r, i)
    ensures Free(Row(f, row, n), c)
  {
    forall i | 0 <= i < n ensures c !in Row(f, row, n)[i] { RowAt(f, row, n, i); }
  }

  /** SHARD_MEMBERS splits on ';' into one list per shard, and each on ',' into the hosts of the shard. */
  lemma ShardMembersSplit(p: Plan, shard: nat)
    requires SeparatorFree(p) && shard < p.shards && p.perShard > 0
    ensures var lists := Split(Join(ShardLists(p, p.shards), ';'), ';');
            |lists| == p.shards && Split(lists[shard], ',') == Row(ShardHost(p), shard, p.perShard)
  {
    var f := ShardHost(p);
    HostsAreFree(p, ',');
    HostsAreFree(p, ';');
    hide MemberHost;
    forall s | 0 <= s < p.shards ensures ';' !in ShardLists(p, p.shards)[s] {
      RowIsFree(f, s, p.perShard, ';');
      JoinFree(Row(f, s, p.perShard), ',', ';');
    }
    SplitJoin(ShardLists(p, p.shards), ';');
    RowIsFree(f, shard, p.perShard, ',');
    SplitJoin(Row(f, shard, p.perShard), ',');
  }

  /** CONFIG_SERVER_MEMBERS splits into the config servers' hosts, and into one host when there are none. */
  lemma ConfigMembersSplit(p: Plan)
    requires SeparatorFree(p)
    ensures Split(Join(Row(ConfigHost(p), 0, AtLeastOne(p.configServers)), ','), ',')
            == Row(ConfigHost(p), 0, AtLeastOne(p.configServers))
  {
    HostsAreFree(p, ',');
    hide MemberHost;
    RowIsFree(ConfigHost(p), 0, AtLeastOne(p.configServers), ',');
    SplitJoin(Row(ConfigHost(p), 0, AtLeastOne(p.configServers)), ',');
  }

  /**
   Membership agreement for a sharded cluster: splitting the two lists recovers the hosts of the
   generated members, shard by shard and in order.
   */
  lemma ShardMembersAgree(p: Plan, shard: nat, i: nat)
    requires |p.azs| > 0 && SeparatorFree(p) && !SingleReplicaSet(p.shards, p.replicaSetOnly)
    requires shard < p.shards && i < p.perShard
    ensures var lists := Split(EnvOf(p).shardMembers, ';');
            && |lists| == p.shards
            && |Split(lists[shard], ',')| == p.perShard
            && Position(p, AShardMember(shard, i)) < |Members(p)|
            && Split(lists[shard], ',')[i] == Members(p)[Position(p, AShardMember(shard, i))].memberHost
  {
    ShardMembersSplit(p, shard);
    RowAt(ShardHost(p), shard, p.perShard, i);
    NameAtPlace(p, AShardMember(shard, i));
  }

  /** The hosts of the first members, as many as there are config servers. */
  ghost function ConfigServerHosts(p: Plan): seq<string>
    requires |p.azs| > 0
  {
    seq(p.configServers, i => if 0 <= i < |Members(p)| then Members(p)[i].memberHost else "")
  }

  /** The config server list agrees with the generated members exactly when there is a config server. */
  lemma ConfigMembersAgree(p: Plan)
    requires |p.azs| > 0 && SeparatorFree(p) && !SingleReplicaSet(p.shards, p.replicaSetOnly)
    ensures p.configServers <= |Members(p)|
    ensures Split(EnvOf(p).configMembers, ',') == ConfigServerHosts(p) <==> p.configServers > 0
  {
    ConfigMembersSplit(p);
    var hosts := Row(ConfigHost(p), 0, AtLeastOne(p.configServers));
    forall i | 0 <= i < p.configServers ensures hosts[i] == Members(p)[i].memberHost {
      NameAtPlace(p, AConfigServer(i));
      RowAt(ConfigHost(p), 0, AtLeastOne(p.configServers), i);
    }
    if p.configServers == 0 {
      assert |hosts| == 1;
    } else {
      assert hosts == ConfigServerHosts(p);
    }
  }

  /** A single replica set: the one list agrees with the generated members exactly when there is a member. */
  lemma ReplicaSetAgrees(p: Plan)
    requires |p.azs| > 0 && SeparatorFree(p) && SingleReplicaSet(p.shards, p.replicaSetOnly)
    ensures |Members(p)| == p.perShard
    ensures Split(EnvOf(p).members, ',') == seq(p.perShard, i requires 0 <= i < p.perShard => Members(p)[i].memberHost)
            <==> p.perShard > 0
  {
    var f, n := SetHost(p), AtLeastOne(p.perShard);
    forall r: nat, i: nat ensures ',' !in f(r, i) { HostIsFree(p.service, i, p.domain, ','); }
    hide FormatInt;
    RowIsFree(f, 0, n, ',');
    SplitJoin(Row(f, 0, n), ',');
    forall i | 0 <= i < p.perShard ensures Row(f, 0, n)[i] == Members(p)[i].memberHost {
      RowAt(f, 0, n, i);
      RowAt(SetMember(p), 0, p.perShard, i);
    }
    assert p.perShard == 0 ==> |Row(f, 0, n)| == 1;
  }

  // ---------------------------------------------------------------- member.conf

  ghost function Turn(x: Place): nat {
    match x
    case AConfigServer(i) => i
    case AShardMember(shard, i) => shard + i
  }

  /** What a member of a sharded cluster is told: its zone, host and role, and where to listen. */
  lemma MemberSettings(p: Plan, x: Place)
    requires |p.azs| > 0 && !SingleReplicaSet(p.shards, p.replicaSetOnly) && IsPlace(p, x)
    ensures Position(p, x) < |Members(p)|
    ensures var c := Members(p)[Position(p, x)];
            && c.zone in p.azs && c.memberHost == c.memberName + "." + p.domain
            && c.bindIP == (if p.platform == "swarm" then "0.0.0.0" else c.memberHost)
            && (c.role == ConfigRole <==> x.AConfigServer?) && (c.role == ShardRole <==> x.AShardMember?)
  {
    hide FormatInt;
    MemberAtPlace(p, x);
  }

  ghost predicate InOneSet(x: Place, y: Place) {
    (x.AConfigServer? && y.AConfigServer?) || (x.AShardMember? && y.AShardMember? && x.shard == y.shard)
  }

  ghost function SetName(service: string, x: Place): string {
    match x
    case AConfigServer(_) => GetConfigServerName(service)
    case AShardMember(shard, _) => GetShardName(service, shard)
  }

  lemma SetNamesDiffer(service: string, x: Place, y: Place)
    ensures SetName(service, x) == SetName(service, y) <==> InOneSet(x, y)
  {
    hide GetConfigServerName, GetShardName;
    match (x, y)
    case (AConfigServer(_), AConfigServer(_)) =>
    case (AConfigServer(_), AShardMember(b, _)) => ConfigNameIsNoShardName(service, b);
    case (AShardMember(a, _), AConfigServer(_)) => ConfigNameIsNoShardName(service, a);
    case (AShardMember(a, _), AShardMember(b, _)) =>
      if GetShardName(service, a) == GetShardName(service, b) { ShardNameInjective(service, a, b); }
  }

  lemma SetNameAtPlace(p: Plan, x: Place)
    requires |p.azs| > 0 && !SingleReplicaSet(p.shards, p.replicaSetOnly) && IsPlace(p, x)
    ensures Position(p, x) < |Members(p)| && Members(p)[Position(p, x)].replSetName == SetName(p.service, x)
  {
    hide FormatInt, Members, GetConfigServerName, GetShardName, Position, IsPlace;
    MemberAtPlace(p, x);
    match x
    case AConfigServer(i) => assert ConfigMember(p)(0, i).replSetName == GetConfigServerName(p.service);
    case AShardMember(shard, i) => assert ShardMember(p)(shard, i).replSetName == GetShardName(p.service, shard);
  }

  /** Two members are in one replica set exactly when both are config servers or both are in one shard. */
  lemma ReplicaSets(p: Plan, x: Place, y: Place)
    requires |p.azs| > 0 && !SingleReplicaSet(p.shards, p.replicaSetOnly) && IsPlace(p, x) && IsPlace(p, y)
    ensures Position(p, x) < |Members(p)| && Position(p, y) < |Members(p)|
    ensures Members(p)[Position(p, x)].replSetName == Members(p)[Position(p, y)].replSetName <==> InOneSet(x, y)
  {
    hide Members, SetName, InOneSet, Position, IsPlace;
    SetNameAtPlace(p, x);
    SetNameAtPlace(p, y);
    SetNamesDiffer(p.service, x, y);
  }

  lemma ZoneAtPlace(p: Plan, x: Place)
    requires |p.azs| > 0 && !SingleReplicaSet(p.shards, p.replicaSetOnly) && IsPlace(p, x)
    ensures Position(p, x) < |Members(p)|
    ensures Members(p)[Position(p, x)].zone == p.azs[Turn(x) % |p.azs|]
  {
    hide FormatInt;
    MemberAtPlace(p, x);
  }

  /**
   The members of one replica set whose places are less than the number of zones apart are in different zones;
   so are the first members of as many successive shards.
   */
  lemma MembersAreSpread(p: Plan, x: Place, y: Place)
    requires |p.azs| > 0 && Distinct(p.azs) && !SingleReplicaSet(p.shards, p.replicaSetOnly) && IsPlace(p, x) && IsPlace(p, y)
    requires InOneSet(x, y) || (x.AShardMember? && y.AShardMember? && x.i == y.i)
    requires Turn(x) < Turn(y) < Turn(x) + |p.azs|
    ensures Position(p, x) < |Members(p)| && Position(p, y) < |Members(p)|
    ensures Members(p)[Position(p, x)].zone != Members(p)[Position(p, y)].zone
  {
    hide Members, Position, IsPlace, InOneSet, Distinct;
    ZoneAtPlace(p, x);
    ZoneAtPlace(p, y);
    TurnsDiffer(p.azs, Turn(x), Turn(y));
  }

  lemma SetMemberAt(p: Plan, i: nat)
    requires |p.azs| > 0 && SingleReplicaSet(p.shards, p.replicaSetOnly) && i < p.perShard
    ensures |Members(p)| == p.perShard
    ensures Members(p)[i].zone == p.azs[i % |p.azs|]
    ensures var c := Members(p)[i];
            && c.memberHost == c.memberName + "." + p.domain && c.replSetName == p.service && c.role == EmptyRole
            && c.bindIP == (if p.platform == "swarm" then "0.0.0.0" else c.memberHost)
  {
    hide FormatInt;
    RowAt(SetMember(p), 0, p.perShard, i);
  }

  /** What the members of a single replica set are told: one set, and fewer of them than zones apart are in different zones. */
  lemma SetMemberSettings(p: Plan, i: nat, j: nat)
    requires |p.azs| > 0 && Distinct(p.azs) && SingleReplicaSet(p.shards, p.replicaSetOnly) && i <= j < p.perShard
    ensures |Members(p)| == p.perShard
    ensures var c := Members(p)[i];
            && c.zone in p.azs && c.memberHost == c.memberName + "." + p.domain && c.replSetName == p.service && c.role == EmptyRole
            && c.bindIP == (if p.platform == "swarm" then "0.0.0.0" else c.memberHost)
    ensures i < j < i + |p.azs| ==> Members(p)[i].zone != Members(p)[j].zone
  {
    hide Members, Distinct;
    SetMemberAt(p, i);
    SetMemberAt(p, j);
    if i < j < i + |p.azs| { TurnsDiffer(p.azs, i, j); }
  }
}
