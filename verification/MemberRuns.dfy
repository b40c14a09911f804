/**
 Concurrent, retried and interrupted runs of CheckAndCreateServiceMembers (pkg/managesvc/service.go)
 for any number of services: the members of each, and the static IPs they get. Nothing is deleted.
 A step is one database or cloud operation of one run; a reply that is lost is an Advance followed
 by a Stop. The lock around createStaticIPs is left out: the results do not need it.
 */
module MemberRuns {
  import Addresses = NextIP
  import Records

  type IP = Addresses.IP

  datatype Config = Config(name: string, zone: string)

  /** What is fixed for a service: the configs of its replicas, and whether its members have static IPs. */
  datatype Service = Service(configs: seq<Config>, requireStaticIP: bool)

  /** Subnets do not overlap: an address is in the subnet of one zone. */
  datatype Fixed = Fixed(services: map<string, Service>, zoneOf: IP -> string)

  datatype Member = Member(zone: string, ip: IP)

  /**
   Zones: the zones whose IPs are still to be made. Scan: the listed IPs of zones[0] still to be looked
   at. Claim: ips[0] has no record. Extend: more IPs may be needed. Record: ip is on an interface.
   */
  datatype Phase =
    | Begin
    | Zones(zones: seq<string>)
    | Scan(zones: seq<string>, ips: seq<IP>)
    | Claim(zones: seq<string>, ips: seq<IP>)
    | Extend(zones: seq<string>)
    | Record(zones: seq<string>, ip: IP)
    | Make(i: nat)
    | Finished
    | Failed

  type Members = map<string, Member>

  /** The addresses of each zone that may still be given away. */
  type Pool = map<string, seq<IP>>

  /** `known` are the members this run listed or created. */
  datatype Runner = Runner(service: string, count: nat, known: Members, pool: Pool, phase: Phase)

  /** members: service to member name to member; owner: address to service. */
  datatype World = World(members: map<string, Members>, owner: map<IP, string>, runners: map<nat, Runner>)

  /** What a step is told by its surroundings: an order of zones, a listing, the next address, whether an interface got it. */
  datatype Input = Input(zones: seq<string>, ips: seq<IP>, ip: IP, granted: bool)

  datatype Event = Start(id: nat, service: string, count: nat) | Advance(id: nat, input: Input) | Stop(id: nat)

  function MembersOf(w: World, s: string): Members {
    if s in w.members then w.members[s] else map[]
  }

  predicate NoDuplicates<T(==)>(s: seq<T>) { forall i, j :: 0 <= i < j < |s| ==> s[i] != s[j] }

  predicate Contains(c: seq<Config>, zone: string) { exists j :: 0 <= j < |c| && c[j].zone == zone }

  /** The zones of the configs, each once. */
  predicate IsZoneOrder(zones: seq<string>, c: seq<Config>) {
    NoDuplicates(zones) && (forall z :: z in zones ==> Contains(c, z)) && forall j :: 0 <= j < |c| ==> c[j].zone in zones
  }

  /** Each IP is on one interface, and an interface has the addresses of its subnet. */
  predicate ListsZone(f: Fixed, zone: string, ips: seq<IP>) {
    NoDuplicates(ips) && forall ip :: ip in ips ==> f.zoneOf(ip) == zone
  }

  /** The number of configs in the zone. */
  function ConfigsIn(c: seq<Config>, zone: string): nat {
    if c == [] then 0 else (if c[0].zone == zone then 1 else 0) + ConfigsIn(c[1..], zone)
  }

  /** The IPs the zone has to have for the members that are still to be made, when the first `made` are there. */
  function Need(s: Service, count: nat, made: nat, zone: string): nat {
    if made <= count <= |s.configs| then ConfigsIn(s.configs[made..count], zone) else 0
  }

  predicate HasIP(known: Members, ip: IP) { exists n :: n in known && known[n].ip == ip }

  function At(pool: Pool, zone: string): seq<IP> { if zone in pool then pool[zone] else [] }

  function Add(pool: Pool, zone: string, ip: IP): Pool { pool[zone := At(pool, zone) + [ip]] }

  /** The address the next member gets. */
  function NextIP(s: Service, pool: Pool, i: nat): IP
    requires i < |s.configs| && (s.requireStaticIP ==> At(pool, s.configs[i].zone) != [])
  {
    if s.requireStaticIP then At(pool, s.configs[i].zone)[0] else Records.DEFAULT_HOST_IP
  }

  function AfterPop(s: Service, pool: Pool, i: nat): Pool
    requires i < |s.configs| && (s.requireStaticIP ==> At(pool, s.configs[i].zone) != [])
  {
    if s.requireStaticIP then pool[s.configs[i].zone := At(pool, s.configs[i].zone)[1..]] else pool
  }

  /** What one operation of a run does: nothing to the tables, a new IP record, or a new member. */
  datatype Effect = Only(r: Runner) | NewIP(ip: IP, r: Runner) | NewMember(name: string, m: Member, r: Runner)

  predicate ValidRun(f: Fixed, r: Runner) {
    r.service in f.services && r.count <= |f.services[r.service].configs|
  }

  /** ListServiceMembers, and the members of each zone are counted. */
  ghost function List(s: Service, listed: Members, r: Runner, input: Input): Runner
    requires r.count <= |s.configs|
  {
    if !s.requireStaticIP then r.(known := listed, phase := Make(|listed|))
    else if exists n :: n in listed && !Contains(s.configs[..r.count], listed[n].zone) then r.(phase := Failed)
    else if IsZoneOrder(input.zones, s.configs[..r.count]) then r.(known := listed, phase := Zones(input.zones))
    else r
  }

  /** GetNetworkInterfaces of the next zone. */
  function NextZone(f: Fixed, r: Runner, zones: seq<string>, input: Input): Phase {
    if zones == [] then Make(|r.known|)
    else if ListsZone(f, zones[0], input.ips) then Scan(zones, input.ips)
    else r.phase
  }

  /** GetServiceStaticIP of the next listed IP that no listed member has. */
  function ScanIP(owner: map<IP, string>, r: Runner, zones: seq<string>, ips: seq<IP>): Runner {
    if zones == [] then r.(phase := Failed)
    else if ips == [] then r.(phase := Extend(zones))
    else if HasIP(r.known, ips[0]) then r.(phase := Scan(zones, ips[1..]))
    else if ips[0] !in owner then r.(phase := Claim(zones, ips))
    else if owner[ips[0]] == r.service then r.(pool := Add(r.pool, zones[0], ips[0]), phase := Scan(zones, ips[1..]))
    else r.(phase := Scan(zones, ips[1..]))
  }

  /** CreateServiceStaticIP of a listed IP. */
  function ClaimIP(owner: map<IP, string>, r: Runner, zones: seq<string>, ips: seq<IP>): Effect {
    if zones == [] || ips == [] || ips[0] in owner then Only(r.(phase := Failed))
    else NewIP(ips[0], r.(pool := Add(r.pool, zones[0], ips[0]), phase := Scan(zones, ips[1..])))
  }

  /** AssignStaticIP of the next address, when the zone needs more. */
  function ExtendZone(f: Fixed, s: Service, r: Runner, zones: seq<string>, input: Input): Phase {
    if zones == [] then Failed
    else if |At(r.pool, zones[0])| >= Need(s, r.count, |r.known|, zones[0]) then Zones(zones[1..])
    else if input.granted && f.zoneOf(input.ip) == zones[0] then Record(zones, input.ip)
    else r.phase
  }

  /** CreateServiceStaticIP of a new address. */
  function RecordIP(owner: map<IP, string>, r: Runner, zones: seq<string>, ip: IP): Effect {
    if zones == [] || ip in owner then Only(r.(phase := Failed))
    else NewIP(ip, r.(pool := Add(r.pool, zones[0], ip), phase := Extend(zones)))
  }

  /** CreateServiceMember of member number i. */
  function MakeMember(s: Service, ms: Members, r: Runner, i: nat): Effect
    requires r.count <= |s.configs|
  {
    if i >= r.count then Only(r.(phase := Finished))
    else if s.requireStaticIP && At(r.pool, s.configs[i].zone) == [] then Only(r.(phase := Failed))
    else if s.configs[i].name in ms then Only(r.(phase := Failed))
    else
      var m := Member(s.configs[i].zone, NextIP(s, r.pool, i));
      NewMember(s.configs[i].name, m,
                r.(known := r.known[s.configs[i].name := m], pool := AfterPop(s, r.pool, i), phase := Make(i + 1)))
  }

  ghost function EffectOf(f: Fixed, w: World, r: Runner, input: Input): Effect
    requires ValidRun(f, r)
  {
    var s := f.services[r.service];
    match r.phase
    case Begin => Only(List(s, MembersOf(w, r.service), r, input))
    case Zones(zones) => Only(r.(phase := NextZone(f, r, zones, input)))
    case Scan(zones, ips) => Only(ScanIP(w.owner, r, zones, ips))
    case Claim(zones, ips) => ClaimIP(w.owner, r, zones, ips)
    case Extend(zones) => Only(r.(phase := ExtendZone(f, s, r, zones, input)))
    case Record(zones, ip) => RecordIP(w.owner, r, zones, ip)
    case Make(i) => MakeMember(s, MembersOf(w, r.service), r, i)
    case _ => Only(r)
  }

  function Apply(w: World, id: nat, e: Effect): World {
    var w' := w.(runners := w.runners[id := e.r]);
    match e
    case Only(r) => w'
    case NewIP(ip, r) => w'.(owner := w.owner[ip := r.service])
    case NewMember(name, m, r) => w'.(members := w.members[r.service := MembersOf(w, r.service)[name := m]])
  }

  ghost function Step(f: Fixed, w: World, e: Event): World {
    match e
    case Start(id, s, count) =>
      if id in w.runners || s !in f.services || count > |f.services[s].configs| then w
      else Apply(w, id, Only(Runner(s, count, map[], map[], Begin)))
    case Stop(id) => if id in w.runners then Apply(w, id, Only(w.runners[id].(phase := Failed))) else w
    case Advance(id, input) =>
      if id in w.runners && ValidRun(f, w.runners[id]) then Apply(w, id, EffectOf(f, w, w.runners[id], input)) else w
  }

  ghost function Run(f: Fixed, w: World, events: seq<Event>): World
    decreases |events|
  {
    if events == [] then w else Run(f, Step(f, w, events[0]), events[1..])
  }

  const EMPTY := World(map[], map[], map[])

  // ---------------------------------------------------------------- the invariant

  /** Member names of a service differ. */
  predicate DistinctNames(f: Fixed) {
    forall s :: s in f.services ==> Distinct(f.services[s].configs)
  }

  predicate Distinct(c: seq<Config>) { forall i, j :: 0 <= i < j < |c| ==> c[i].name != c[j].name }

  /** The members are those of the first |ms| configs. */
  ghost predicate PrefixOf(ms: Members, c: seq<Config>) {
    && |ms| <= |c|
    && (forall j :: 0 <= j < |c| ==> (c[j].name in ms <==> j < |ms|))
    && (forall n :: n in ms ==> Configured(c[..|ms|], n, ms[n].zone))
  }

  ghost predicate Configured(c: seq<Config>, name: string, zone: string) {
    exists j :: 0 <= j < |c| && c[j].name == name && c[j].zone == zone
  }

  ghost predicate Sub(a: Members, b: Members) {
    forall n :: n in a ==> n in b && a[n] == b[n]
  }

  ghost predicate Owned(ms: Members, s: string, owner: map<IP, string>) {
    forall n :: n in ms ==> ms[n].ip in owner && owner[ms[n].ip] == s
  }

  ghost predicate DistinctIPs(ms: Members) {
    forall m, n :: m in ms && n in ms && m != n ==> ms[m].ip != ms[n].ip
  }

  /** Members of one service have distinct addresses, each recorded for the service. */
  ghost predicate ServiceOK(s: Service, service: string, ms: Members, owner: map<IP, string>) {
    && PrefixOf(ms, s.configs)
    && (s.requireStaticIP ==> Owned(ms, service, owner) && DistinctIPs(ms))
  }

  ghost predicate MembersOK(f: Fixed, w: World) {
    forall s :: s in f.services ==> ServiceOK(f.services[s], s, MembersOf(w, s), w.owner)
  }

  /** The address is recorded for the service and in its zone, and no known member has it. */
  ghost predicate Usable(f: Fixed, owner: map<IP, string>, service: string, known: Members, zone: string, ip: IP) {
    ip in owner && owner[ip] == service && f.zoneOf(ip) == zone && !HasIP(known, ip)
  }

  ghost predicate PoolOK(f: Fixed, owner: map<IP, string>, service: string, known: Members, pool: Pool) {
    && (forall z, ip :: z in pool && ip in pool[z] ==> Usable(f, owner, service, known, z, ip))
    && (forall z :: z in pool ==> NoDuplicates(pool[z]))
  }

  /** Every zone that is not among `zones` has an IP for each of its members still to be made. */
  ghost predicate Enough(s: Service, count: nat, made: nat, pool: Pool, zones: seq<string>) {
    forall z :: z !in zones ==> |At(pool, z)| >= Need(s, count, made, z)
  }

  ghost predicate Fresh(pool: Pool, zones: seq<string>) { forall z :: z in zones ==> z !in pool }

  ghost predicate ZonesLeft(s: Service, r: Runner, zones: seq<string>) {
    zones != [] && NoDuplicates(zones) && Fresh(r.pool, zones[1..]) && Enough(s, r.count, |r.known|, r.pool, zones)
  }

  ghost predicate IPsLeft(f: Fixed, pool: Pool, zone: string, ips: seq<IP>) {
    ListsZone(f, zone, ips) && forall ip :: ip in ips ==> ip !in At(pool, zone)
  }

  ghost predicate PhaseOK(f: Fixed, s: Service, r: Runner) {
    && (!s.requireStaticIP ==> r.pool == map[] && (r.phase.Begin? || r.phase.Make? || r.phase.Finished? || r.phase.Failed?))
    && match r.phase
       case Begin => r.known == map[] && r.pool == map[]
       case Zones(zones) => NoDuplicates(zones) && Fresh(r.pool, zones) && Enough(s, r.count, |r.known|, r.pool, zones)
       case Scan(zones, ips) => ZonesLeft(s, r, zones) && IPsLeft(f, r.pool, zones[0], ips)
       case Claim(zones, ips) =>
         ZonesLeft(s, r, zones) && IPsLeft(f, r.pool, zones[0], ips) && ips != [] && !HasIP(r.known, ips[0])
       case Extend(zones) => ZonesLeft(s, r, zones)
       case Record(zones, ip) => ZonesLeft(s, r, zones) && f.zoneOf(ip) == zones[0]
       case Make(i) => i == |r.known| && (s.requireStaticIP ==> Enough(s, r.count, |r.known|, r.pool, []))
       case _ => true
  }

  ghost predicate RunnerOK(f: Fixed, w: World, r: Runner) {
    && ValidRun(f, r)
    && Sub(r.known, MembersOf(w, r.service))
    && PrefixOf(r.known, f.services[r.service].configs)
    && PoolOK(f, w.owner, r.service, r.known, r.pool)
    && PhaseOK(f, f.services[r.service], r)
  }

  ghost predicate RunnersOK(f: Fixed, w: World, runners: map<nat, Runner>) {
    forall id :: id in runners ==> RunnerOK(f, w, runners[id])
  }

  ghost predicate Inv(f: Fixed, w: World) {
    DistinctNames(f) && MembersOK(f, w) && RunnersOK(f, w, w.runners)
  }

  // ---------------------------------------------------------------- what the other runs keep

  ghost predicate OwnerGrows(owner: map<IP, string>, owner': map<IP, string>) {
    forall ip :: ip in owner ==> ip in owner' && owner'[ip] == owner[ip]
  }

  /** Members and IP records are only added. */
  ghost predicate Grows(w: World, w': World) {
    && (forall s :: Sub(MembersOf(w, s), MembersOf(w', s)))
    && OwnerGrows(w.owner, w'.owner)
  }

  lemma PoolSurvives(f: Fixed, owner: map<IP, string>, owner': map<IP, string>, service: string, known: Members, pool: Pool)
    requires PoolOK(f, owner, service, known, pool) && OwnerGrows(owner, owner')
    ensures PoolOK(f, owner', service, known, pool)
  {
    hide HasIP, NoDuplicates;
  }

  lemma RunnerSurvives(f: Fixed, w: World, w': World, r: Runner)
    requires RunnerOK(f, w, r) && Grows(w, w')
    ensures RunnerOK(f, w', r)
  {
    PoolSurvives(f, w.owner, w'.owner, r.service, r.known, r.pool);
    hide PrefixOf, PhaseOK, PoolOK;
    assert Sub(MembersOf(w, r.service), MembersOf(w', r.service));
  }

  /** The effect keeps what is known of the tables and of the run itself. */
  ghost predicate EffectOK(f: Fixed, w: World, id: nat, e: Effect) {
    var w' := Apply(w, id, e);
    Grows(w, w') && MembersOK(f, w') && RunnerOK(f, w', e.r)
  }

  lemma EffectStep(f: Fixed, w: World, id: nat, e: Effect)
    requires Inv(f, w) && EffectOK(f, w, id, e)
    ensures Inv(f, Apply(w, id, e))
  {
    hide RunnerOK, Grows, MembersOK;
    var w' := Apply(w, id, e);
    assert w'.runners == w.runners[id := e.r];
    forall i | i in w'.runners ensures RunnerOK(f, w', w'.runners[i]) {
      if i != id { RunnerSurvives(f, w, w', w.runners[i]); }
    }
  }

  /** Only the run itself goes on. */
  lemma OnlyRunner(f: Fixed, w: World, id: nat, r: Runner)
    requires MembersOK(f, w) && RunnerOK(f, w, r)
    ensures EffectOK(f, w, id, Only(r))
  {
    hide ServiceOK, PrefixOf, PhaseOK, PoolOK;
    var w' := Apply(w, id, Only(r));
    assert forall s :: MembersOf(w', s) == MembersOf(w, s);
  }

  /** A run goes on to another phase. */
  lemma PhaseStep(f: Fixed, w: World, id: nat, r: Runner, p: Phase)
    requires MembersOK(f, w) && RunnerOK(f, w, r) && PhaseOK(f, f.services[r.service], r.(phase := p))
    ensures EffectOK(f, w, id, Only(r.(phase := p)))
  {
    hide MembersOK, PrefixOf, PoolOK, PhaseOK, Sub, EffectOK;
    OnlyRunner(f, w, id, r.(phase := p));
  }

  // ---------------------------------------------------------------- the pool

  /** A usable address that is not in the pool joins it. */
  lemma PoolGrows(f: Fixed, owner: map<IP, string>, service: string, known: Members, pool: Pool, zone: string, ip: IP)
    requires PoolOK(f, owner, service, known, pool)
    requires Usable(f, owner, service, known, zone, ip) && ip !in At(pool, zone)
    ensures PoolOK(f, owner, service, known, Add(pool, zone, ip))
  {
    hide Usable;
    var pool' := Add(pool, zone, ip);
    assert forall z :: z in pool' && z != zone ==> z in pool && pool'[z] == pool[z];
  }

  /** An address without a record is in no pool, and no member has it. */
  lemma RecordIsNew(f: Fixed, owner: map<IP, string>, service: string, known: Members, pool: Pool, zone: string, ip: IP)
    requires PoolOK(f, owner, service, known, pool) && ip !in owner && f.zoneOf(ip) == zone && Owned(known, service, owner)
    ensures Usable(f, owner[ip := service], service, known, zone, ip) && ip !in At(pool, zone)
    ensures PoolOK(f, owner[ip := service], service, known, Add(pool, zone, ip))
  {
    PoolSurvives(f, owner, owner[ip := service], service, known, pool);
    assert ip !in At(pool, zone) by { hide HasIP, NoDuplicates; }
    assert !HasIP(known, ip);
    hide HasIP, NoDuplicates;
    PoolGrows(f, owner[ip := service], service, known, pool, zone, ip);
  }

  lemma {:induction false} NoneConfigured(c: seq<Config>, zone: string)
    requires !Contains(c, zone)
    ensures ConfigsIn(c, zone) == 0
  {
    if c != [] {
      assert !Contains(c[1..], zone);
      NoneConfigured(c[1..], zone);
    }
  }

  lemma AddKeepsZones(s: Service, r: Runner, zones: seq<string>, ip: IP, p: Phase)
    requires ZonesLeft(s, r, zones)
    ensures ZonesLeft(s, r.(pool := Add(r.pool, zones[0], ip), phase := p), zones)
  {
    hide Need;
    var pool := Add(r.pool, zones[0], ip);
    assert forall z :: z in zones[1..] ==> z != zones[0];
    assert forall z :: z !in zones ==> At(pool, z) == At(r.pool, z);
  }

  lemma SkipIP(f: Fixed, pool: Pool, zone: string, ips: seq<IP>)
    requires ips != [] && IPsLeft(f, pool, zone, ips)
    ensures IPsLeft(f, pool, zone, ips[1..]) && IPsLeft(f, Add(pool, zone, ips[0]), zone, ips[1..])
    ensures f.zoneOf(ips[0]) == zone && ips[0] !in At(pool, zone)
  {
    assert forall ip :: ip in ips[1..] ==> ip in ips && ip != ips[0];
  }

  // ---------------------------------------------------------------- the operations

  lemma ListOK(f: Fixed, w: World, id: nat, r: Runner, input: Input)
    requires MembersOK(f, w) && RunnerOK(f, w, r) && r.phase.Begin?
    ensures EffectOK(f, w, id, EffectOf(f, w, r, input))
  {
    var s := f.services[r.service];
    var listed := MembersOf(w, r.service);
    assert ServiceOK(s, r.service, listed, w.owner);
    var r' := List(s, listed, r, input);
    hide MembersOK, Owned, DistinctIPs, PrefixOf, IsZoneOrder, Contains, NoDuplicates, EffectOK, PoolOK;
    assert PhaseOK(f, s, r') by {
      if s.requireStaticIP && IsZoneOrder(input.zones, s.configs[..r.count]) {
        NothingNeeded(s, r.count, |listed|, input.zones);
        hide Enough;
        IsOrder(input.zones, s.configs[..r.count]);
      }
    }
    EmptyPool(f, w.owner, r.service, r'.known);
    hide PhaseOK;
    OnlyRunner(f, w, id, r');
  }

  lemma IsOrder(zones: seq<string>, c: seq<Config>)
    ensures IsZoneOrder(zones, c) ==> NoDuplicates(zones)
  {
  }

  lemma NothingNeeded(s: Service, count: nat, made: nat, zones: seq<string>)
    requires count <= |s.configs| && IsZoneOrder(zones, s.configs[..count])
    ensures Enough(s, count, made, map[], zones)
  {
    forall z | z !in zones ensures Need(s, count, made, z) == 0 {
      if made <= count {
        assert forall j :: 0 <= j < count ==> s.configs[..count][j].zone in zones;
        assert forall j :: 0 <= j < count ==> s.configs[j].zone in zones;
        NoneConfigured(s.configs[made..count], z);
      }
    }
  }

  lemma NextZoneOK(f: Fixed, w: World, id: nat, r: Runner, zones: seq<string>, input: Input)
    requires MembersOK(f, w) && RunnerOK(f, w, r) && r.phase == Zones(zones)
    ensures EffectOK(f, w, id, EffectOf(f, w, r, input))
  {
    hide MembersOK, PrefixOf, Sub, PoolOK, Need, EffectOK;
    var s := f.services[r.service];
    assert PhaseOK(f, s, r.(phase := NextZone(f, r, zones, input)));
    PhaseStep(f, w, id, r, NextZone(f, r, zones, input));
  }

  lemma ScanOK(f: Fixed, w: World, id: nat, r: Runner, zones: seq<string>, ips: seq<IP>, input: Input)
    requires MembersOK(f, w) && RunnerOK(f, w, r) && r.phase == Scan(zones, ips)
    ensures EffectOK(f, w, id, EffectOf(f, w, r, input))
  {
    hide MembersOK, PrefixOf, Sub, Need, EffectOK, NoDuplicates, HasIP, Enough;
    var s := f.services[r.service];
    var r' := ScanIP(w.owner, r, zones, ips);
    if ips != [] {
      SkipIP(f, r.pool, zones[0], ips);
      hide ListsZone, IPsLeft;
      if !HasIP(r.known, ips[0]) && ips[0] in w.owner && w.owner[ips[0]] == r.service {
        PoolGrows(f, w.owner, r.service, r.known, r.pool, zones[0], ips[0]);
        AddKeepsZones(s, r, zones, ips[0], Scan(zones, ips[1..]));
      }
    }
    hide PoolOK;
    assert PhaseOK(f, s, r');
    OnlyRunner(f, w, id, r');
  }

  /** An address without a record gets one: it goes to the pool of this run. */
  lemma RecordOK(f: Fixed, w: World, id: nat, r: Runner, zone: string, ip: IP, p: Phase)
    requires MembersOK(f, w) && ValidRun(f, r) && f.services[r.service].requireStaticIP
    requires Sub(r.known, MembersOf(w, r.service)) && PrefixOf(r.known, f.services[r.service].configs)
    requires PoolOK(f, w.owner, r.service, r.known, r.pool) && ip !in w.owner && f.zoneOf(ip) == zone
    requires PhaseOK(f, f.services[r.service], r.(pool := Add(r.pool, zone, ip), phase := p))
    ensures EffectOK(f, w, id, NewIP(ip, r.(pool := Add(r.pool, zone, ip), phase := p)))
  {
    var r' := r.(pool := Add(r.pool, zone, ip), phase := p);
    var w' := Apply(w, id, NewIP(ip, r'));
    assert Owned(r.known, r.service, w.owner) by {
      assert ServiceOK(f.services[r.service], r.service, MembersOf(w, r.service), w.owner);
      hide PrefixOf, PoolOK, PhaseOK, MembersOK;
    }
    hide PrefixOf, PhaseOK;
    RecordsGrow(f, w, w', r.service, ip);
    RecordIsNew(f, w.owner, r.service, r.known, r.pool, zone, ip);
    hide MembersOK, Grows, PoolOK, Add, Owned;
    assert MembersOf(w', r.service) == MembersOf(w, r.service);
  }

  lemma RecordsGrow(f: Fixed, w: World, w': World, service: string, ip: IP)
    requires MembersOK(f, w) && ip !in w.owner && w'.members == w.members && w'.owner == w.owner[ip := service]
    ensures MembersOK(f, w') && Grows(w, w')
  {
    hide PrefixOf, DistinctIPs;
    assert forall s :: MembersOf(w', s) == MembersOf(w, s);
  }

  lemma ClaimOK(f: Fixed, w: World, id: nat, r: Runner, zones: seq<string>, ips: seq<IP>, input: Input)
    requires MembersOK(f, w) && RunnerOK(f, w, r) && r.phase == Claim(zones, ips)
    ensures EffectOK(f, w, id, EffectOf(f, w, r, input))
  {
    hide PrefixOf, Sub, MembersOK, PoolOK, Need, EffectOK, NoDuplicates, HasIP, Enough;
    if ips[0] in w.owner {
      PhaseStep(f, w, id, r, Failed);
    } else {
      SkipIP(f, r.pool, zones[0], ips);
      AddKeepsZones(f.services[r.service], r, zones, ips[0], Scan(zones, ips[1..]));
      hide IPsLeft, ZonesLeft;
      RecordOK(f, w, id, r, zones[0], ips[0], Scan(zones, ips[1..]));
    }
  }

  lemma ExtendOK(f: Fixed, w: World, id: nat, r: Runner, zones: seq<string>, input: Input)
    requires MembersOK(f, w) && RunnerOK(f, w, r) && r.phase == Extend(zones)
    ensures EffectOK(f, w, id, EffectOf(f, w, r, input))
  {
    hide MembersOK, PrefixOf, Sub, PoolOK, Need, EffectOK;
    var s := f.services[r.service];
    assert PhaseOK(f, s, r.(phase := ExtendZone(f, s, r, zones, input)));
    PhaseStep(f, w, id, r, ExtendZone(f, s, r, zones, input));
  }

  lemma RecordNewOK(f: Fixed, w: World, id: nat, r: Runner, zones: seq<string>, ip: IP, input: Input)
    requires MembersOK(f, w) && RunnerOK(f, w, r) && r.phase == Record(zones, ip)
    ensures EffectOK(f, w, id, EffectOf(f, w, r, input))
  {
    hide PrefixOf, Sub, MembersOK, PoolOK, Need, EffectOK, NoDuplicates, Enough;
    if ip in w.owner {
      PhaseStep(f, w, id, r, Failed);
    } else {
      AddKeepsZones(f.services[r.service], r, zones, ip, Extend(zones));
      hide ZonesLeft;
      RecordOK(f, w, id, r, zones[0], ip, Extend(zones));
    }
  }

  /** A run that makes the next member knows all members there are: had another run made one more, it would be there. */
  lemma KnowsAll(f: Fixed, w: World, r: Runner)
    requires MembersOK(f, w) && RunnerOK(f, w, r) && r.phase.Make? && r.phase.i < r.count
    requires f.services[r.service].configs[r.phase.i].name !in MembersOf(w, r.service)
    ensures MembersOf(w, r.service) == r.known
  {
    hide PrefixOf, PoolOK, Sub, DistinctIPs, Owned, Enough;
    assert ServiceOK(f.services[r.service], r.service, MembersOf(w, r.service), w.owner);
    SamePrefix(r.known, MembersOf(w, r.service), f.services[r.service].configs);
  }

  lemma SamePrefix(known: Members, ms: Members, c: seq<Config>)
    requires PrefixOf(known, c) && PrefixOf(ms, c) && Sub(known, ms)
    requires |known| < |c| && c[|known|].name !in ms
    ensures ms == known
  {
    if |known| > 0 { assert c[|known| - 1].name in known; }
    assert |ms| == |known|;
    forall n | n in ms ensures n in known {
      assert Configured(c[..|ms|], n, ms[n].zone);
    }
  }

  lemma PrefixGrows(ms: Members, c: seq<Config>, m: Member)
    requires PrefixOf(ms, c) && |ms| < |c| && m.zone == c[|ms|].zone && Distinct(c)
    ensures PrefixOf(ms[c[|ms|].name := m], c) && |ms[c[|ms|].name := m]| == |ms| + 1
  {
    var name := c[|ms|].name;
    var ms' := ms[name := m];
    KeysGrow(ms, name, m);
    hide Configured;
    forall n | n in ms' ensures Configured(c[..|ms'|], n, ms'[n].zone) {
      if n == name {
        assert c[|ms|].name == n && c[|ms|].zone == ms'[n].zone;
        IsConfigured(c, |ms'|, |ms|);
      } else {
        MoreConfigured(c, |ms|, |ms'|, n, ms[n].zone);
      }
    }
  }

  lemma KeysGrow(ms: Members, name: string, m: Member)
    requires name !in ms
    ensures |ms[name := m]| == |ms| + 1
  {
    assert ms[name := m].Keys == ms.Keys + {name};
    assert |ms[name := m].Keys| == |ms.Keys| + 1;
  }

  lemma IsConfigured(c: seq<Config>, n: nat, j: nat)
    requires j < n <= |c|
    ensures Configured(c[..n], c[j].name, c[j].zone)
  {
    assert c[..n][j] == c[j];
  }

  lemma MoreConfigured(c: seq<Config>, a: nat, b: nat, name: string, zone: string)
    requires a <= b <= |c| && Configured(c[..a], name, zone)
    ensures Configured(c[..b], name, zone)
  {
    var j :| 0 <= j < |c[..a]| && c[..a][j].name == name && c[..a][j].zone == zone;
    assert c[..b][j] == c[..a][j];
  }

  lemma PoolShrinks(f: Fixed, owner: map<IP, string>, service: string, known: Members, pool: Pool, zone: string, name: string)
    requires PoolOK(f, owner, service, known, pool) && At(pool, zone) != []
    ensures var ip := At(pool, zone)[0];
            && Usable(f, owner, service, known, zone, ip)
            && PoolOK(f, owner, service, known[name := Member(zone, ip)], pool[zone := At(pool, zone)[1..]])
  {
    var ip := At(pool, zone)[0];
    assert ip in pool[zone];
    var known' := known[name := Member(zone, ip)];
    var pool' := pool[zone := At(pool, zone)[1..]];
    forall z, x | z in pool' && x in pool'[z] ensures Usable(f, owner, service, known', z, x) {
      assert x in pool[z];
      assert Usable(f, owner, service, known, z, x);
      assert x != ip;
    }
  }

  lemma StillEnough(s: Service, count: nat, made: nat, pool: Pool)
    requires made < count <= |s.configs| && Enough(s, count, made, pool, [])
    ensures At(pool, s.configs[made].zone) != []
    ensures Enough(s, count, made + 1, pool[s.configs[made].zone := At(pool, s.configs[made].zone)[1..]], [])
  {
    var zone := s.configs[made].zone;
    var rest := s.configs[made..count];
    assert rest[0] == s.configs[made] && rest[1..] == s.configs[made + 1..count];
    assert |At(pool, zone)| >= Need(s, count, made, zone) == 1 + ConfigsIn(rest[1..], zone);
    forall z | z !in [] ensures |At(pool[zone := At(pool, zone)[1..]], z)| >= Need(s, count, made + 1, z) {
      assert |At(pool, z)| >= Need(s, count, made, z);
    }
  }

  lemma IPsGrow(ms: Members, s: string, owner: map<IP, string>, name: string, m: Member)
    requires Owned(ms, s, owner) && DistinctIPs(ms) && m.ip in owner && owner[m.ip] == s && !HasIP(ms, m.ip)
    ensures Owned(ms[name := m], s, owner) && DistinctIPs(ms[name := m])
  {
  }

  lemma MakeNewOK(f: Fixed, w: World, id: nat, r: Runner, i: nat)
    requires DistinctNames(f) && MembersOK(f, w) && RunnerOK(f, w, r) && r.phase == Make(i) && i < r.count
    requires f.services[r.service].configs[i].name !in MembersOf(w, r.service)
    ensures EffectOK(f, w, id, MakeMember(f.services[r.service], MembersOf(w, r.service), r, i))
  {
    var s := f.services[r.service];
    KnowsAll(f, w, r);
    assert ServiceOK(s, r.service, r.known, w.owner);
    assert i == |r.known|;
    hide PhaseOK, ServiceOK, PrefixOf, PoolOK, MembersOK, EffectOK, Sub, At, NextIP, AfterPop;
    MakeIsFine(f, w.owner, s, r, i);
    var m := Member(s.configs[i].zone, NextIP(s, r.pool, i));
    NewMemberOK(f, w, id, s.configs[i].name, m, Makes(s, r, i));
  }

  /** The run after it made member number i. */
  function Makes(s: Service, r: Runner, i: nat): Runner
    requires i < |s.configs| && (s.requireStaticIP ==> At(r.pool, s.configs[i].zone) != [])
  {
    r.(known := r.known[s.configs[i].name := Member(s.configs[i].zone, NextIP(s, r.pool, i))],
       pool := AfterPop(s, r.pool, i), phase := Make(i + 1))
  }

  lemma MakeIsFine(f: Fixed, owner: map<IP, string>, s: Service, r: Runner, i: nat)
    requires PhaseOK(f, s, r) && r.phase == Make(i) && i < r.count <= |s.configs| && Distinct(s.configs)
    requires ServiceOK(s, r.service, r.known, owner) && PoolOK(f, owner, r.service, r.known, r.pool)
    ensures s.requireStaticIP ==> At(r.pool, s.configs[i].zone) != []
    ensures PhaseOK(f, s, Makes(s, r, i)) && ServiceOK(s, r.service, Makes(s, r, i).known, owner)
    ensures PoolOK(f, owner, r.service, Makes(s, r, i).known, Makes(s, r, i).pool)
  {
    hide PrefixOf, PoolOK, Enough, Owned, DistinctIPs, At;
    if s.requireStaticIP {
      MakeStatic(f, owner, s, r, i);
    } else {
      EmptyPool(f, owner, r.service, r.known[s.configs[i].name := Member(s.configs[i].zone, Records.DEFAULT_HOST_IP)]);
    }
    PrefixGrows(r.known, s.configs, Member(s.configs[i].zone, NextIP(s, r.pool, i)));
  }

  lemma MakeStatic(f: Fixed, owner: map<IP, string>, s: Service, r: Runner, i: nat)
    requires s.requireStaticIP && i == |r.known| < r.count <= |s.configs| && Enough(s, r.count, i, r.pool, [])
    requires PoolOK(f, owner, r.service, r.known, r.pool) && Owned(r.known, r.service, owner) && DistinctIPs(r.known)
    ensures At(r.pool, s.configs[i].zone) != []
    ensures Enough(s, r.count, i + 1, AfterPop(s, r.pool, i), [])
    ensures var known := r.known[s.configs[i].name := Member(s.configs[i].zone, NextIP(s, r.pool, i))];
            && PoolOK(f, owner, r.service, known, AfterPop(s, r.pool, i))
            && Owned(known, r.service, owner) && DistinctIPs(known)
  {
    hide PoolOK, Enough, HasIP, Owned, DistinctIPs, At;
    StillEnough(s, r.count, i, r.pool);
    PoolShrinks(f, owner, r.service, r.known, r.pool, s.configs[i].zone, s.configs[i].name);
    IPsGrow(r.known, r.service, owner, s.configs[i].name, Member(s.configs[i].zone, NextIP(s, r.pool, i)));
  }

  lemma EmptyPool(f: Fixed, owner: map<IP, string>, service: string, known: Members)
    ensures PoolOK(f, owner, service, known, map[])
  {
  }

  lemma NewMemberOK(f: Fixed, w: World, id: nat, name: string, m: Member, r: Runner)
    requires MembersOK(f, w) && ValidRun(f, r) && name !in MembersOf(w, r.service)
    requires r.known == MembersOf(w, r.service)[name := m]
    requires ServiceOK(f.services[r.service], r.service, r.known, w.owner)
    requires PoolOK(f, w.owner, r.service, r.known, r.pool) && PhaseOK(f, f.services[r.service], r)
    ensures EffectOK(f, w, id, NewMember(name, m, r))
  {
    hide PrefixOf, PoolOK, PhaseOK, Owned, DistinctIPs;
    var w' := Apply(w, id, NewMember(name, m, r));
    assert MembersOf(w', r.service) == r.known;
    assert forall s :: s != r.service ==> MembersOf(w', s) == MembersOf(w, s);
  }

  lemma MakeOK(f: Fixed, w: World, id: nat, r: Runner, i: nat, input: Input)
    requires DistinctNames(f) && MembersOK(f, w) && RunnerOK(f, w, r) && r.phase == Make(i)
    ensures EffectOK(f, w, id, EffectOf(f, w, r, input))
  {
    hide PrefixOf, Sub, MembersOK, HasIP, NoDuplicates, EffectOK, PoolOK, Enough, DistinctNames;
    if i < r.count && f.services[r.service].configs[i].name !in MembersOf(w, r.service) {
      MakeNewOK(f, w, id, r, i);
    } else {
      PhaseStep(f, w, id, r, if i >= r.count then Finished else Failed);
    }
  }

  lemma EffectOfRun(f: Fixed, w: World, id: nat, input: Input)
    requires Inv(f, w) && id in w.runners
    ensures EffectOK(f, w, id, EffectOf(f, w, w.runners[id], input))
  {
    var r := w.runners[id];
    assert RunnerOK(f, w, r);
    hide MembersOK, RunnersOK, DistinctNames, EffectOK, EffectOf, Sub, PrefixOf, PoolOK;
    match r.phase
    case Begin => ListOK(f, w, id, r, input);
    case Zones(zones) => NextZoneOK(f, w, id, r, zones, input);
    case Scan(zones, ips) => ScanOK(f, w, id, r, zones, ips, input);
    case Claim(zones, ips) => ClaimOK(f, w, id, r, zones, ips, input);
    case Extend(zones) => ExtendOK(f, w, id, r, zones, input);
    case Record(zones, ip) => RecordNewOK(f, w, id, r, zones, ip, input);
    case Make(i) => MakeOK(f, w, id, r, i, input);
    case _ => EndedOK(f, w, id, r, input);
  }

  lemma EndedOK(f: Fixed, w: World, id: nat, r: Runner, input: Input)
    requires MembersOK(f, w) && RunnerOK(f, w, r) && (r.phase.Finished? || r.phase.Failed?)
    ensures EffectOK(f, w, id, EffectOf(f, w, r, input))
  {
    hide MembersOK, EffectOK, Sub, PrefixOf, PoolOK, PhaseOK;
    OnlyRunner(f, w, id, r);
  }

  lemma StartOK(f: Fixed, w: World, id: nat, s: string, count: nat)
    requires MembersOK(f, w) && s in f.services && count <= |f.services[s].configs|
    ensures EffectOK(f, w, id, Only(Runner(s, count, map[], map[], Begin)))
  {
    var r := Runner(s, count, map[], map[], Begin);
    assert RunnerOK(f, w, r) by { EmptyPool(f, w.owner, s, map[]); hide PoolOK; }
    hide MembersOK, EffectOK, RunnerOK;
    OnlyRunner(f, w, id, r);
  }

  lemma StepKeepsInv(f: Fixed, w: World, e: Event)
    requires Inv(f, w)
    ensures Inv(f, Step(f, w, e))
  {
    hide EffectOf, EffectOK, MembersOK, DistinctNames, PrefixOf, PoolOK, Sub;
    match e
    case Start(id, s, count) =>
      if id !in w.runners && s in f.services && count <= |f.services[s].configs| {
        StartOK(f, w, id, s, count);
        EffectStep(f, w, id, Only(Runner(s, count, map[], map[], Begin)));
      }
    case Stop(id) =>
      if id in w.runners {
        assert RunnerOK(f, w, w.runners[id]);
        PhaseStep(f, w, id, w.runners[id], Failed);
        EffectStep(f, w, id, Only(w.runners[id].(phase := Failed)));
      }
    case Advance(id, input) =>
      if id in w.runners && ValidRun(f, w.runners[id]) {
        EffectOfRun(f, w, id, input);
        EffectStep(f, w, id, EffectOf(f, w, w.runners[id], input));
      }
  }

  // ---------------------------------------------------------------- results

  lemma {:induction false} RunKeepsInv(f: Fixed, w: World, events: seq<Event>)
    requires Inv(f, w)
    ensures Inv(f, Run(f, w, events))
    decreases |events|
  {
    if events != [] {
      hide Inv;
      StepKeepsInv(f, w, events[0]);
      RunKeepsInv(f, Step(f, w, events[0]), events[1..]);
    }
  }

  lemma EmptyIsFine(f: Fixed)
    requires DistinctNames(f)
    ensures Inv(f, EMPTY)
  {
  }

  /** The names of the first k configs. */
  ghost function FirstNames(c: seq<Config>, k: nat): set<string>
    requires k <= |c|
  {
    set j | 0 <= j < k :: c[j].name
  }

  /** In every run the stored members of a service are exactly those of its first k configs, for some k. */
  lemma MembersArePrefix(f: Fixed, events: seq<Event>, s: string)
    requires DistinctNames(f) && s in f.services
    ensures var ms := MembersOf(Run(f, EMPTY, events), s);
            exists k: nat :: k <= |f.services[s].configs| && ms.Keys == FirstNames(f.services[s].configs, k)
  {
    EmptyIsFine(f);
    RunKeepsInv(f, EMPTY, events);
    var w := Run(f, EMPTY, events);
    var ms, c := MembersOf(w, s), f.services[s].configs;
    assert ServiceOK(f.services[s], s, ms, w.owner);
    hide Owned, DistinctIPs, RunnersOK, Run;
    forall n | n in ms ensures exists j :: 0 <= j < |ms| && c[j].name == n {
      assert Configured(c[..|ms|], n, ms[n].zone);
      var j :| 0 <= j < |c[..|ms|]| && c[..|ms|][j].name == n;
      assert c[j].name == n;
    }
    assert ms.Keys == FirstNames(c, |ms|);
  }

  /** In every run, no two members of services with static IPs hold the same IP, and each IP is recorded for its member's service. */
  lemma StaticIPsAreUnique(f: Fixed, events: seq<Event>, s: string, m: string, s': string, m': string)
    requires DistinctNames(f) && s in f.services && s' in f.services
    requires f.services[s].requireStaticIP && f.services[s'].requireStaticIP
    requires m in MembersOf(Run(f, EMPTY, events), s) && m' in MembersOf(Run(f, EMPTY, events), s')
    ensures var w := Run(f, EMPTY, events);
            && MembersOf(w, s)[m].ip in w.owner && w.owner[MembersOf(w, s)[m].ip] == s
            && (MembersOf(w, s)[m].ip == MembersOf(w, s')[m'].ip ==> s == s' && m == m')
  {
    EmptyIsFine(f);
    RunKeepsInv(f, EMPTY, events);
    var w := Run(f, EMPTY, events);
    hide PrefixOf, RunnersOK, Run;
    assert ServiceOK(f.services[s], s, MembersOf(w, s), w.owner);
    assert ServiceOK(f.services[s'], s', MembersOf(w, s'), w.owner);
  }

  /** The step is one of a run that makes the next member of the service. */
  ghost predicate MakesNext(f: Fixed, w: World, e: Event, s: string) {
    && e.Advance? && e.id in w.runners && w.runners[e.id].service == s && s in f.services
    && RunnerOK(f, w, w.runners[e.id]) && w.runners[e.id].phase.Make? && w.runners[e.id].phase.i < w.runners[e.id].count
    && f.services[s].configs[w.runners[e.id].phase.i].name !in MembersOf(w, s)
  }

  lemma OnlyMakeAddsMembers(f: Fixed, w: World, e: Event, s: string)
    requires Inv(f, w)
    ensures MembersOf(Step(f, w, e), s) != MembersOf(w, s) ==> MakesNext(f, w, e, s)
  {
    hide MembersOK, RunnerOK, PrefixOf, PoolOK, Sub, List, ScanIP, NextZone, ExtendZone;
    if MembersOf(Step(f, w, e), s) != MembersOf(w, s) {
      assert e.Advance? && e.id in w.runners;
      assert RunnerOK(f, w, w.runners[e.id]);
    }
  }

  /** A run that creates a member has itself listed or created every member that exists, and creates the next one. */
  lemma CreatorKnowsAll(f: Fixed, w: World, e: Event, s: string)
    requires Inv(f, w)
    ensures MembersOf(Step(f, w, e), s) != MembersOf(w, s) ==>
              && e.Advance? && e.id in w.runners && w.runners[e.id].service == s && s in f.services
              && w.runners[e.id].known == MembersOf(w, s) && |MembersOf(w, s)| < |f.services[s].configs|
              && MembersOf(Step(f, w, e), s).Keys == MembersOf(w, s).Keys + {f.services[s].configs[|MembersOf(w, s)|].name}
  {
    hide RunnersOK, MembersOK, PrefixOf, PoolOK, Sub, EffectOf, Step;
    OnlyMakeAddsMembers(f, w, e, s);
    if MembersOf(Step(f, w, e), s) != MembersOf(w, s) {
      KnowsAll(f, w, w.runners[e.id]);
      AddedName(f, w, e, s);
    }
  }

  lemma AddedName(f: Fixed, w: World, e: Event, s: string)
    requires e.Advance? && e.id in w.runners && w.runners[e.id].service == s && ValidRun(f, w.runners[e.id])
    requires w.runners[e.id].phase.Make? && w.runners[e.id].phase.i == |MembersOf(w, s)|
    requires MembersOf(Step(f, w, e), s) != MembersOf(w, s)
    ensures |MembersOf(w, s)| < |f.services[s].configs|
    ensures MembersOf(Step(f, w, e), s).Keys == MembersOf(w, s).Keys + {f.services[s].configs[|MembersOf(w, s)|].name}
  {
    hide NextIP, AfterPop, At, List, NextZone, ScanIP, ClaimIP, ExtendZone, RecordIP, MembersOf, Apply, MakeMember;
    var r := w.runners[e.id];
    var effect := MakeMember(f.services[s], MembersOf(w, s), r, r.phase.i);
    assert Step(f, w, e) == Apply(w, e.id, effect);
    hide Step, EffectOf;
    MadeName(f.services[s], MembersOf(w, s), r, r.phase.i);
    AddedTo(w, e.id, effect, s);
  }

  lemma MadeName(s: Service, ms: Members, r: Runner, i: nat)
    requires r.count <= |s.configs|
    ensures var effect := MakeMember(s, ms, r, i);
            && effect.r.service == r.service && !effect.NewIP?
            && (effect.NewMember? ==> i < |s.configs| && effect.name == s.configs[i].name)
  {
    hide NextIP, AfterPop, At;
  }

  lemma AddedTo(w: World, id: nat, effect: Effect, s: string)
    requires effect.r.service == s && !effect.NewIP?
    ensures MembersOf(Apply(w, id, effect), s) == if effect.NewMember? then MembersOf(w, s)[effect.name := effect.m] else MembersOf(w, s)
  {
  }

  /** Neither "internal error" for a missing static IP is reached: there is an IP for every member that is still to be made. */
  lemma StaticIPsSuffice(f: Fixed, w: World, id: nat)
    requires Inv(f, w) && id in w.runners && w.runners[id].phase.Make? && w.runners[id].phase.i < w.runners[id].count
    requires f.services[w.runners[id].service].requireStaticIP
    ensures w.runners[id].service in f.services && w.runners[id].phase.i < |f.services[w.runners[id].service].configs|
    ensures At(w.runners[id].pool, f.services[w.runners[id].service].configs[w.runners[id].phase.i].zone) != []
  {
    var r := w.runners[id];
    assert RunnerOK(f, w, r);
    hide RunnersOK, MembersOK, PrefixOf, PoolOK, Sub, Enough, At;
    StillEnough(f.services[r.service], r.count, r.phase.i, r.pool);
  }

  // ---------------------------------------------------------------- a run that nobody disturbs

  ghost predicate OnlyOf(id: nat, events: seq<Event>) {
    forall i :: 0 <= i < |events| ==> events[i].id == id && !events[i].Stop?
  }

  /** The events take the world there, and no other run moves. */
  ghost predicate Leads(f: Fixed, w: World, id: nat, events: seq<Event>, w': World) {
    OnlyOf(id, events) && Run(f, w, events) == w' && Inv(f, w')
  }

  lemma {:induction false} RunConcat(f: Fixed, w: World, a: seq<Event>, b: seq<Event>)
    ensures Run(f, w, a + b) == Run(f, Run(f, w, a), b)
    decreases |a|
  {
    hide Step;
    if a == [] {
      assert a + b == b;
    } else {
      assert (a + b)[0] == a[0] && (a + b)[1..] == a[1..] + b;
      RunConcat(f, Step(f, w, a[0]), a[1..], b);
    }
  }

  lemma LeadsOne(f: Fixed, w: World, id: nat, e: Event)
    requires Inv(f, w) && e.id == id && !e.Stop?
    ensures Leads(f, w, id, [e], Step(f, w, e)) && Inv(f, Step(f, w, e))
  {
    hide Step, Inv;
    StepKeepsInv(f, w, e);
    assert [e][1..] == [];
    assert Run(f, w, [e]) == Run(f, Step(f, w, e), []);
  }

  lemma LeadsOn(f: Fixed, w: World, id: nat, a: seq<Event>, w1: World, b: seq<Event>, w2: World)
    requires Leads(f, w, id, a, w1) && Leads(f, w1, id, b, w2)
    ensures Leads(f, w, id, a + b, w2)
  {
    hide Run, Inv;
    RunConcat(f, w, a, b);
  }

  predicate IsUnused(f: Fixed, zone: string, used: set<IP>, ip: IP) { f.zoneOf(ip) == zone && ip !in used }

  /** A zone never runs out of addresses. */
  ghost predicate AddressesLeft(f: Fixed) {
    forall zone, used: set<IP> :: HasUnused(f, zone, used)
  }

  ghost predicate HasUnused(f: Fixed, zone: string, used: set<IP>) { exists ip :: IsUnused(f, zone, used, ip) }

  ghost predicate IsAt(w: World, id: nat, s: string, count: nat, known: Members, pool: Pool, phase: Phase) {
    && id in w.runners && w.runners[id] == Runner(s, count, known, pool, phase) && known == MembersOf(w, s)
  }

  const NO_INPUT := Input([], [], [], false)

  lemma RunnerIsValid(f: Fixed, w: World, id: nat)
    requires Inv(f, w) && id in w.runners
    ensures ValidRun(f, w.runners[id])
  {
    assert RunnerOK(f, w, w.runners[id]);
  }

  /** The run does what the phase says. */
  lemma StepIs(f: Fixed, w: World, id: nat, input: Input)
    requires Inv(f, w) && id in w.runners
    ensures ValidRun(f, w.runners[id])
    ensures Step(f, w, Advance(id, input)) == Apply(w, id, EffectOf(f, w, w.runners[id], input))
  {
    RunnerIsValid(f, w, id);
    hide EffectOf, Apply, Inv;
  }

  /** The effect of each phase that comes up here. */
  lemma Effects(f: Fixed, w: World, r: Runner, input: Input, zones: seq<string>)
    requires ValidRun(f, r)
    ensures r.phase == Extend(zones) ==>
              EffectOf(f, w, r, input) == Only(r.(phase := ExtendZone(f, f.services[r.service], r, zones, input)))
    ensures r.phase == Zones(zones) ==> EffectOf(f, w, r, input) == Only(r.(phase := NextZone(f, r, zones, input)))
    ensures r.phase == Scan(zones, []) ==> EffectOf(f, w, r, input) == Only(ScanIP(w.owner, r, zones, []))
    ensures r.phase.Record? && r.phase.zones == zones ==> EffectOf(f, w, r, input) == RecordIP(w.owner, r, zones, r.phase.ip)
    ensures r.phase.Make? ==> EffectOf(f, w, r, input) == MakeMember(f.services[r.service], MembersOf(w, r.service), r, r.phase.i)
    ensures r.phase.Begin? ==> EffectOf(f, w, r, input) == Only(List(f.services[r.service], MembersOf(w, r.service), r, input))
  {
    hide List, NextZone, ScanIP, ClaimIP, ExtendZone, RecordIP, MakeMember, MembersOf;
  }

  lemma OnlyPhase(w: World, id: nat, s: string, count: nat, known: Members, pool: Pool, phase: Phase, r: Runner)
    requires IsAt(w, id, s, count, known, pool, phase) && r.service == s && r.count == count && r.known == known
    ensures var w' := Apply(w, id, Only(r));
            IsAt(w', id, s, count, known, r.pool, r.phase) && w'.members == w.members && w'.owner == w.owner
  {
  }

  lemma Granted(f: Fixed, w: World, id: nat, s: string, count: nat, known: Members, pool: Pool, zones: seq<string>, ip: IP)
    requires Inv(f, w) && IsAt(w, id, s, count, known, pool, Extend(zones)) && zones != [] && f.zoneOf(ip) == zones[0]
    requires s in f.services && |At(pool, zones[0])| < Need(f.services[s], count, |known|, zones[0])
    ensures var w' := Step(f, w, Advance(id, Input([], [], ip, true)));
            IsAt(w', id, s, count, known, pool, Record(zones, ip)) && w'.members == w.members && w'.owner == w.owner
  {
    StepIs(f, w, id, Input([], [], ip, true));
    Effects(f, w, w.runners[id], Input([], [], ip, true), zones);
    hide EffectOf, MembersOf, ValidRun, Inv, Step, Apply, Need, At, List, ScanIP, NextZone, ClaimIP, RecordIP, MakeMember;
    OnlyPhase(w, id, s, count, known, pool, Extend(zones), w.runners[id].(phase := Record(zones, ip)));
  }

  lemma NoMoreNeeded(f: Fixed, w: World, id: nat, s: string, count: nat, known: Members, pool: Pool, zones: seq<string>)
    requires Inv(f, w) && IsAt(w, id, s, count, known, pool, Extend(zones)) && zones != []
    requires s in f.services && |At(pool, zones[0])| >= Need(f.services[s], count, |known|, zones[0])
    ensures var w' := Step(f, w, Advance(id, NO_INPUT));
            IsAt(w', id, s, count, known, pool, Zones(zones[1..])) && w'.members == w.members
  {
    StepIs(f, w, id, NO_INPUT);
    Effects(f, w, w.runners[id], NO_INPUT, zones);
    hide EffectOf, MembersOf, ValidRun, Inv, Step, Apply, Need, At, List, ScanIP, NextZone, ClaimIP, RecordIP, MakeMember;
    OnlyPhase(w, id, s, count, known, pool, Extend(zones), w.runners[id].(phase := Zones(zones[1..])));
  }

  lemma Recorded(f: Fixed, w: World, id: nat, s: string, count: nat, known: Members, pool: Pool, zones: seq<string>, ip: IP)
    requires Inv(f, w) && IsAt(w, id, s, count, known, pool, Record(zones, ip)) && zones != [] && ip !in w.owner
    ensures var w' := Step(f, w, Advance(id, NO_INPUT));
            IsAt(w', id, s, count, known, Add(pool, zones[0], ip), Extend(zones)) && w'.members == w.members
  {
    StepIs(f, w, id, NO_INPUT);
    Effects(f, w, w.runners[id], NO_INPUT, zones);
    hide EffectOf, MembersOf, ValidRun, Inv, Step, Need, At, List, ScanIP, NextZone, ClaimIP, ExtendZone, MakeMember, Add;
  }

  lemma ZonesStep(f: Fixed, w: World, id: nat, s: string, count: nat, known: Members, pool: Pool, zones: seq<string>)
    requires Inv(f, w) && IsAt(w, id, s, count, known, pool, Zones(zones))
    ensures var w' := Step(f, w, Advance(id, NO_INPUT));
            && IsAt(w', id, s, count, known, pool, if zones == [] then Make(|known|) else Scan(zones, []))
            && w'.members == w.members
  {
    StepIs(f, w, id, NO_INPUT);
    Effects(f, w, w.runners[id], NO_INPUT, zones);
    hide EffectOf, MembersOf, ValidRun, Inv, Step, Apply, Need, At, List, ScanIP, ClaimIP, RecordIP, ExtendZone, MakeMember;
    OnlyPhase(w, id, s, count, known, pool, Zones(zones), w.runners[id].(phase := if zones == [] then Make(|known|) else Scan(zones, [])));
  }

  lemma NothingListed(f: Fixed, w: World, id: nat, s: string, count: nat, known: Members, pool: Pool, zones: seq<string>)
    requires Inv(f, w) && IsAt(w, id, s, count, known, pool, Scan(zones, [])) && zones != []
    ensures var w' := Step(f, w, Advance(id, NO_INPUT));
            IsAt(w', id, s, count, known, pool, Extend(zones)) && w'.members == w.members && w'.owner == w.owner
  {
    StepIs(f, w, id, NO_INPUT);
    Effects(f, w, w.runners[id], NO_INPUT, zones);
    hide EffectOf, MembersOf, ValidRun, Inv, Step, Apply, Need, At, List, NextZone, ClaimIP, RecordIP, ExtendZone, MakeMember;
    OnlyPhase(w, id, s, count, known, pool, Scan(zones, []), w.runners[id].(phase := Extend(zones)));
  }

  lemma AddedOne(pool: Pool, zone: string, ip: IP)
    ensures |At(Add(pool, zone, ip), zone)| == |At(pool, zone)| + 1
  {
  }

  /** The zone gets the addresses it needs. */
  lemma {:induction false} ZoneFilled(f: Fixed, w: World, id: nat, s: string, count: nat, known: Members, pool: Pool, zones: seq<string>)
    returns (events: seq<Event>, w': World, pool': Pool)
    requires Inv(f, w) && AddressesLeft(f) && IsAt(w, id, s, count, known, pool, Extend(zones)) && zones != [] && s in f.services
    ensures Leads(f, w, id, events, w') && IsAt(w', id, s, count, known, pool', Zones(zones[1..])) && w'.members == w.members
    ensures Inv(f, w')
    decreases Need(f.services[s], count, |known|, zones[0]) - |At(pool, zones[0])|
  {
    hide Inv, Need, At, Add, Leads, Run, Step, IsAt;
    var e := Advance(id, NO_INPUT);
    if |At(pool, zones[0])| < Need(f.services[s], count, |known|, zones[0]) {
      assert HasUnused(f, zones[0], w.owner.Keys);
      var ip :| IsUnused(f, zones[0], w.owner.Keys, ip);
      var grant := Advance(id, Input([], [], ip, true));
      LeadsOne(f, w, id, grant);
      Granted(f, w, id, s, count, known, pool, zones, ip);
      var w1 := Step(f, w, grant);
      LeadsOne(f, w1, id, e);
      Recorded(f, w1, id, s, count, known, pool, zones, ip);
      var w2 := Step(f, w1, e);
      AddedOne(pool, zones[0], ip);
      var rest, w3, pool3 := ZoneFilled(f, w2, id, s, count, known, Add(pool, zones[0], ip), zones);
      LeadsOn(f, w, id, [grant], w1, [e], w2);
      LeadsOn(f, w, id, [grant] + [e], w2, rest, w3);
      events, w', pool' := [grant] + [e] + rest, w3, pool3;
    } else {
      LeadsOne(f, w, id, e);
      NoMoreNeeded(f, w, id, s, count, known, pool, zones);
      events, w', pool' := [e], Step(f, w, e), pool;
    }
  }

  lemma {:induction false} ZonesFilled(f: Fixed, w: World, id: nat, s: string, count: nat, known: Members, pool: Pool, zones: seq<string>)
    returns (events: seq<Event>, w': World, pool': Pool)
    requires Inv(f, w) && AddressesLeft(f) && IsAt(w, id, s, count, known, pool, Zones(zones)) && s in f.services
    ensures Leads(f, w, id, events, w') && IsAt(w', id, s, count, known, pool', Make(|known|)) && w'.members == w.members
    ensures Inv(f, w')
    decreases |zones|
  {
    hide Inv, Leads, Run, Step, IsAt, AddressesLeft;
    var e := Advance(id, NO_INPUT);
    LeadsOne(f, w, id, e);
    ZonesStep(f, w, id, s, count, known, pool, zones);
    var w1 := Step(f, w, e);
    if zones == [] {
      events, w', pool' := [e], w1, pool;
    } else {
      LeadsOne(f, w1, id, e);
      NothingListed(f, w1, id, s, count, known, pool, zones);
      var w2 := Step(f, w1, e);
      var fill, w3, pool3 := ZoneFilled(f, w2, id, s, count, known, pool, zones);
      var rest, w4, pool4 := ZonesFilled(f, w3, id, s, count, known, pool3, zones[1..]);
      LeadsOn(f, w, id, [e], w1, [e], w2);
      LeadsOn(f, w, id, [e] + [e], w2, fill, w3);
      LeadsOn(f, w, id, [e] + [e] + fill, w3, rest, w4);
      events, w', pool' := [e] + [e] + fill + rest, w4, pool4;
    }
  }

  /** The members of the first count configs are there. */
  ghost predicate AllThere(f: Fixed, w: World, s: string, count: nat)
    requires s in f.services
  {
    count <= |f.services[s].configs| && forall j :: 0 <= j < count ==> f.services[s].configs[j].name in MembersOf(w, s)
  }

  lemma MakesThis(sv: Service, ms: Members, r: Runner)
    requires r.count <= |sv.configs| && r.known == ms && |ms| < r.count && sv.configs[|ms|].name !in ms
    requires sv.requireStaticIP ==> At(r.pool, sv.configs[|ms|].zone) != []
    ensures var m := Member(sv.configs[|ms|].zone, NextIP(sv, r.pool, |ms|));
            MakeMember(sv, ms, r, |ms|)
            == NewMember(sv.configs[|ms|].name, m,
                         r.(known := ms[sv.configs[|ms|].name := m], pool := AfterPop(sv, r.pool, |ms|), phase := Make(|ms| + 1)))
  {
    hide At, NextIP, AfterPop;
  }

  lemma Applied(w: World, id: nat, s: string, count: nat, known: Members, pool: Pool, phase: Phase, name: string, m: Member, r: Runner)
    requires IsAt(w, id, s, count, known, pool, phase) && name !in known
    requires r == Runner(s, count, known[name := m], r.pool, r.phase)
    ensures var w' := Apply(w, id, NewMember(name, m, r)); IsAt(w', id, s, count, known[name := m], r.pool, r.phase)
    ensures |known[name := m]| == |known| + 1
  {
    assert known[name := m].Keys == known.Keys + {name};
  }

  /** What the next step of a run that makes members needs. */
  lemma ReadyToMake(f: Fixed, w: World, id: nat, s: string, count: nat, known: Members, pool: Pool)
    requires Inv(f, w) && s in f.services && IsAt(w, id, s, count, known, pool, Make(|known|))
    ensures count <= |f.services[s].configs|
    ensures |known| < count ==>
              && f.services[s].configs[|known|].name !in known
              && (f.services[s].requireStaticIP ==> At(pool, f.services[s].configs[|known|].zone) != [])
  {
    RunnerIsValid(f, w, id);
    assert ServiceOK(f.services[s], s, MembersOf(w, s), w.owner);
    if |known| < count && f.services[s].requireStaticIP { StaticIPsSuffice(f, w, id); }
    hide RunnersOK, Owned, DistinctIPs, At;
  }

  lemma MakeStep(f: Fixed, w: World, id: nat, s: string, count: nat, known: Members, pool: Pool) returns (known': Members, pool': Pool)
    requires Inv(f, w) && s in f.services && IsAt(w, id, s, count, known, pool, Make(|known|))
    ensures var w' := Step(f, w, Advance(id, NO_INPUT));
            if |known| < count then IsAt(w', id, s, count, known', pool', Make(|known'|)) && |known'| == |known| + 1
            else IsAt(w', id, s, count, known, pool, Finished)
  {
    ReadyToMake(f, w, id, s, count, known, pool);
    StepIs(f, w, id, NO_INPUT);
    Effects(f, w, w.runners[id], NO_INPUT, []);
    var r, c := w.runners[id], f.services[s].configs;
    hide EffectOf, ValidRun, Inv, Step, At, NextIP, AfterPop, Apply;
    known', pool' := known, pool;
    if |known| < count {
      hide MakeMember;
      var m := Member(c[|known|].zone, NextIP(f.services[s], pool, |known|));
      known', pool' := known[c[|known|].name := m], AfterPop(f.services[s], pool, |known|);
      MakesThis(f.services[s], known, r);
      Applied(w, id, s, count, known, pool, Make(|known|), c[|known|].name, m, r.(known := known', pool := pool', phase := Make(|known| + 1)));
    } else {
      OnlyPhase(w, id, s, count, known, pool, Make(|known|), r.(phase := Finished));
    }
  }

  lemma {:induction false} MakesAll(f: Fixed, w: World, id: nat, s: string, count: nat, known: Members, pool: Pool)
    returns (events: seq<Event>, w': World)
    requires Inv(f, w) && s in f.services && IsAt(w, id, s, count, known, pool, Make(|known|))
    ensures Leads(f, w, id, events, w') && AllThere(f, w', s, count) && id in w'.runners && w'.runners[id].phase.Finished?
    decreases count - |known|
  {
    var e := Advance(id, NO_INPUT);
    LeadsOne(f, w, id, e);
    var known', pool' := MakeStep(f, w, id, s, count, known, pool);
    var w1 := Step(f, w, e);
    if |known| < count {
      hide Inv, Leads, Run, Step, IsAt, AllThere;
      var rest, w2 := MakesAll(f, w1, id, s, count, known', pool');
      LeadsOn(f, w, id, [e], w1, rest, w2);
      events, w' := [e] + rest, w2;
    } else {
      events, w' := [e], w1;
      AllMade(f, w1, id, s, count, known);
    }
  }

  lemma AllMade(f: Fixed, w: World, id: nat, s: string, count: nat, known: Members)
    requires Inv(f, w) && s in f.services && known == MembersOf(w, s) && id in w.runners && w.runners[id].service == s
    requires w.runners[id].count == count <= |known|
    ensures AllThere(f, w, s, count)
  {
    RunnerIsValid(f, w, id);
    assert ServiceOK(f.services[s], s, MembersOf(w, s), w.owner);
    hide RunnersOK, Owned, DistinctIPs;
  }

  lemma ZoneOrderExists(c: seq<Config>) returns (zones: seq<string>)
    ensures IsZoneOrder(zones, c)
  {
    if c == [] {
      zones := [];
    } else {
      var n := |c| - 1;
      var before := ZoneOrderExists(c[..n]);
      zones := if c[n].zone in before then before else before + [c[n].zone];
      forall z | z in zones ensures Contains(c, z) {
        if z in before { assert Contains(c[..n], z); } else { assert c[n].zone == z; }
      }
      forall j | 0 <= j < |c| ensures c[j].zone in zones { assert j < n ==> c[..n][j] == c[j]; }
    }
  }

  lemma ListStep(f: Fixed, w: World, id: nat, s: string, count: nat, zones: seq<string>)
    requires Inv(f, w) && s in f.services && |MembersOf(w, s)| <= count && id in w.runners
    requires w.runners[id] == Runner(s, count, map[], map[], Begin) && count <= |f.services[s].configs|
    requires IsZoneOrder(zones, f.services[s].configs[..count])
    ensures var w', known := Step(f, w, Advance(id, Input(zones, [], [], false))), MembersOf(w, s);
            IsAt(w', id, s, count, known, map[], if f.services[s].requireStaticIP then Zones(zones) else Make(|known|))
  {
    var input := Input(zones, [], [], false);
    StepIs(f, w, id, input);
    Effects(f, w, w.runners[id], input, []);
    assert ServiceOK(f.services[s], s, MembersOf(w, s), w.owner);
    ListedZonesKnown(f.services[s].configs, count, MembersOf(w, s));
    hide EffectOf, ValidRun, Inv, ServiceOK, Step, Need, At, NextZone, ScanIP, ClaimIP, RecordIP, ExtendZone, MakeMember, IsZoneOrder, Contains;
  }

  lemma Started(f: Fixed, w: World, id: nat, s: string, count: nat)
    requires id !in w.runners && s in f.services && count <= |f.services[s].configs|
    ensures var w' := Step(f, w, Start(id, s, count));
            w'.members == w.members && id in w'.runners && w'.runners[id] == Runner(s, count, map[], map[], Begin)
  {
  }

  lemma StartsAndLists(f: Fixed, w: World, id: nat, s: string, count: nat, zones: seq<string>) returns (events: seq<Event>, w': World)
    requires Inv(f, w) && id !in w.runners && s in f.services && |MembersOf(w, s)| <= count <= |f.services[s].configs|
    requires IsZoneOrder(zones, f.services[s].configs[..count])
    ensures Leads(f, w, id, events, w') && Inv(f, w')
    ensures var known := MembersOf(w, s);
            IsAt(w', id, s, count, known, map[], if f.services[s].requireStaticIP then Zones(zones) else Make(|known|))
  {
    var start, e := Start(id, s, count), Advance(id, Input(zones, [], [], false));
    var w1 := Step(f, w, start);
    hide Inv, Leads, IsZoneOrder, Step, IsAt;
    LeadsOne(f, w, id, start);
    Started(f, w, id, s, count);
    assert MembersOf(w1, s) == MembersOf(w, s);
    hide MembersOf;
    LeadsOne(f, w1, id, e);
    ListStep(f, w1, id, s, count, zones);
    var w2 := Step(f, w1, e);
    LeadsOn(f, w, id, [start], w1, [e], w2);
    events, w' := [start] + [e], w2;
  }

  /** A run by itself makes all the members it is to make, with their addresses. */
  lemma RunCompletes(f: Fixed, w: World, id: nat, s: string, count: nat) returns (events: seq<Event>, w': World)
    requires Inv(f, w) && id !in w.runners && s in f.services && |MembersOf(w, s)| <= count <= |f.services[s].configs|
    requires f.services[s].requireStaticIP ==> AddressesLeft(f)
    ensures OnlyOf(id, events) && Run(f, w, events) == w' && Inv(f, w')
    ensures AllThere(f, w', s, count) && id in w'.runners && w'.runners[id].phase.Finished?
  {
    hide Inv, AddressesLeft, Run, IsZoneOrder, Step, IsAt, MembersOf, AllThere, OnlyOf;
    var known, pool: Pool := MembersOf(w, s), map[];
    var zones := ZoneOrderExists(f.services[s].configs[..count]);
    var first, w2 := StartsAndLists(f, w, id, s, count, zones);
    events, w' := first, w2;
    if f.services[s].requireStaticIP {
      var fill, w3, pool3 := ZonesFilled(f, w2, id, s, count, known, pool, zones);
      LeadsOn(f, w, id, first, w2, fill, w3);
      events, w', pool := first + fill, w3, pool3;
    }
    var make, w4 := MakesAll(f, w', id, s, count, known, pool);
    LeadsOn(f, w, id, events, w', make, w4);
    events, w' := events + make, w4;
  }

  lemma ListedZonesKnown(c: seq<Config>, count: nat, known: Members)
    requires PrefixOf(known, c) && |known| <= count <= |c|
    ensures forall n :: n in known ==> Contains(c[..count], known[n].zone)
  {
    forall n | n in known ensures Contains(c[..count], known[n].zone) {
      assert Configured(c[..|known|], n, known[n].zone);
      var j :| 0 <= j < |known| && c[..|known|][j].name == n && c[..|known|][j].zone == known[n].zone;
      assert c[..count][j].zone == known[n].zone;
    }
  }

  /** No member that the run knows has the address, and it is not recorded for another service. */
  predicate ToAdopt(owner: map<IP, string>, s: string, known: Members, ip: IP) {
    !HasIP(known, ip) && (ip in owner ==> owner[ip] == s)
  }

  /** What looking at one listed address leads to. */
  function Scanned(owner: map<IP, string>, s: string, known: Members, pool: Pool, zones: seq<string>, ips: seq<IP>): (Pool, Phase)
    requires zones != [] && ips != []
  {
    if !ToAdopt(owner, s, known, ips[0]) then (pool, Scan(zones, ips[1..]))
    else if ips[0] in owner then (Add(pool, zones[0], ips[0]), Scan(zones, ips[1..]))
    else (pool, Claim(zones, ips))
  }

  lemma ScannedIP(owner: map<IP, string>, r: Runner, zones: seq<string>, ips: seq<IP>)
    requires zones != [] && ips != []
    ensures var to := Scanned(owner, r.service, r.known, r.pool, zones, ips);
            ScanIP(owner, r, zones, ips) == r.(pool := to.0, phase := to.1)
  {
    hide Add, HasIP;
  }

  lemma ScanStep(f: Fixed, w: World, id: nat, s: string, count: nat, known: Members, pool: Pool, zones: seq<string>, ips: seq<IP>)
    requires Inv(f, w) && IsAt(w, id, s, count, known, pool, Scan(zones, ips)) && zones != [] && ips != []
    ensures var w', to := Step(f, w, Advance(id, NO_INPUT)), Scanned(w.owner, s, known, pool, zones, ips);
            IsAt(w', id, s, count, known, to.0, to.1) && w'.members == w.members && w'.owner == w.owner
  {
    StepIs(f, w, id, NO_INPUT);
    var r, to := w.runners[id], Scanned(w.owner, s, known, pool, zones, ips);
    ScanEffect(f, w, r, zones, ips);
    hide EffectOf, MembersOf, ValidRun, Inv, Step, Apply, ScanIP, Scanned;
    ScannedIP(w.owner, r, zones, ips);
    OnlyPhase(w, id, s, count, known, pool, Scan(zones, ips), r.(pool := to.0, phase := to.1));
  }

  /** One listed address: it is adopted, with its record or a new one, or passed over. */
  lemma ScanOne(f: Fixed, w: World, id: nat, s: string, count: nat, known: Members, pool: Pool, zones: seq<string>, ips: seq<IP>)
    returns (events: seq<Event>, w': World, pool': Pool)
    requires Inv(f, w) && IsAt(w, id, s, count, known, pool, Scan(zones, ips)) && zones != [] && ips != []
    ensures Leads(f, w, id, events, w') && Inv(f, w') && w'.members == w.members
    ensures IsAt(w', id, s, count, known, pool', Scan(zones, ips[1..]))
    ensures ScannedTo(w.owner, s, known, pool, zones[0], ips[0], w'.owner, pool')
  {
    var e := Advance(id, NO_INPUT);
    hide Inv, Leads, Run, Step, IsAt, Add;
    LeadsOne(f, w, id, e);
    ScanStep(f, w, id, s, count, known, pool, zones, ips);
    var w1 := Step(f, w, e);
    if ToAdopt(w.owner, s, known, ips[0]) && ips[0] !in w.owner {
      LeadsOne(f, w1, id, e);
      ClaimStep(f, w1, id, s, count, known, pool, zones, ips);
      w' := Step(f, w1, e);
      LeadsOn(f, w, id, [e], w1, [e], w');
      events, pool' := [e] + [e], Add(pool, zones[0], ips[0]);
    } else {
      events, w', pool' := [e], w1, Scanned(w.owner, s, known, pool, zones, ips).0;
    }
  }

  predicate ScannedTo(owner: map<IP, string>, s: string, known: Members, pool: Pool, zone: string, ip: IP, owner': map<IP, string>,
                      pool': Pool) {
    if ToAdopt(owner, s, known, ip) then pool' == Add(pool, zone, ip) && owner' == owner[ip := s] else pool' == pool && owner' == owner
  }

  lemma ScanEffect(f: Fixed, w: World, r: Runner, zones: seq<string>, ips: seq<IP>)
    requires ValidRun(f, r)
    ensures r.phase == Scan(zones, ips) ==> EffectOf(f, w, r, NO_INPUT) == Only(ScanIP(w.owner, r, zones, ips))
    ensures r.phase == Claim(zones, ips) ==> EffectOf(f, w, r, NO_INPUT) == ClaimIP(w.owner, r, zones, ips)
  {
    hide List, NextZone, ScanIP, ClaimIP, ExtendZone, RecordIP, MakeMember, MembersOf;
  }

  lemma ClaimStep(f: Fixed, w: World, id: nat, s: string, count: nat, known: Members, pool: Pool, zones: seq<string>, ips: seq<IP>)
    requires Inv(f, w) && IsAt(w, id, s, count, known, pool, Claim(zones, ips)) && zones != [] && ips != [] && ips[0] !in w.owner
    ensures var w' := Step(f, w, Advance(id, NO_INPUT));
            && IsAt(w', id, s, count, known, Add(pool, zones[0], ips[0]), Scan(zones, ips[1..]))
            && w'.members == w.members && w'.owner == w.owner[ips[0] := s]
  {
    StepIs(f, w, id, NO_INPUT);
    ScanEffect(f, w, w.runners[id], zones, ips);
    hide EffectOf, MembersOf, ValidRun, Inv, Step, Add;
  }

  /** Exactly the listed addresses to adopt joined the zone's pool, each recorded for the service by now. */
  ghost predicate Adopts(owner: map<IP, string>, s: string, known: Members, pool: Pool, zone: string, ips: seq<IP>, owner': map<IP, string>,
                   pool': Pool) {
    && (forall ip :: ip in At(pool', zone) <==> ip in At(pool, zone) || (ip in ips && ToAdopt(owner, s, known, ip)))
    && (forall ip :: ip in ips && ToAdopt(owner, s, known, ip) ==> ip in owner' && owner'[ip] == s)
    && (forall ip :: ip in owner ==> ip in owner' && owner'[ip] == owner[ip])
  }

  lemma AdoptsOneMore(owner: map<IP, string>, s: string, known: Members, pool: Pool, zone: string, ips: seq<IP>,
                      owner1: map<IP, string>, pool1: Pool, owner2: map<IP, string>, pool2: Pool)
    requires ips != [] && ScannedTo(owner, s, known, pool, zone, ips[0], owner1, pool1)
    requires Adopts(owner1, s, known, pool1, zone, ips[1..], owner2, pool2)
    ensures Adopts(owner, s, known, pool, zone, ips, owner2, pool2)
  {
    hide HasIP, At, Add;
    assert forall ip :: ip in ips <==> ip == ips[0] || ip in ips[1..];
    assert forall ip :: ip != ips[0] ==> (ToAdopt(owner1, s, known, ip) <==> ToAdopt(owner, s, known, ip));
    AddedIsIn(pool, zone, ips[0]);
  }

  /** All listed addresses are looked at. */
  lemma {:induction false} ScanCompletes(f: Fixed, w: World, id: nat, s: string, count: nat, known: Members, pool: Pool,
                                         zones: seq<string>, ips: seq<IP>)
    returns (events: seq<Event>, w': World, pool': Pool)
    requires Inv(f, w) && IsAt(w, id, s, count, known, pool, Scan(zones, ips)) && zones != []
    ensures Leads(f, w, id, events, w') && Inv(f, w') && w'.members == w.members
    ensures IsAt(w', id, s, count, known, pool', Extend(zones))
    ensures Adopts(w.owner, s, known, pool, zones[0], ips, w'.owner, pool')
    decreases |ips|
  {
    hide Inv, Leads, Run, Step, IsAt, Adopts, ScannedTo;
    if ips == [] {
      var e := Advance(id, NO_INPUT);
      LeadsOne(f, w, id, e);
      NothingListed(f, w, id, s, count, known, pool, zones);
      events, w', pool' := [e], Step(f, w, e), pool;
      NothingAdopted(w.owner, s, known, pool, zones[0]);
    } else {
      var first, w1, pool1 := ScanOne(f, w, id, s, count, known, pool, zones, ips);
      var rest, w2, pool2 := ScanCompletes(f, w1, id, s, count, known, pool1, zones, ips[1..]);
      LeadsOn(f, w, id, first, w1, rest, w2);
      events, w', pool' := first + rest, w2, pool2;
      AdoptsOneMore(w.owner, s, known, pool, zones[0], ips, w1.owner, pool1, w2.owner, pool2);
    }
  }

  lemma NothingAdopted(owner: map<IP, string>, s: string, known: Members, pool: Pool, zone: string)
    ensures Adopts(owner, s, known, pool, zone, [], owner, pool)
  {
    hide HasIP, At;
  }

  lemma AddedIsIn(pool: Pool, zone: string, ip: IP)
    ensures forall x :: x in At(Add(pool, zone, ip), zone) <==> x in At(pool, zone) || x == ip
  {
  }

  /** A listed member in a zone without configs ends the run. */
  lemma UnknownZoneFails(f: Fixed, w: World, id: nat, s: string, input: Input, n: string)
    requires Inv(f, w) && s in f.services && f.services[s].requireStaticIP && id in w.runners
    requires w.runners[id].service == s && w.runners[id].phase.Begin? && n in MembersOf(w, s)
    requires w.runners[id].count <= |f.services[s].configs|
    requires !Contains(f.services[s].configs[..w.runners[id].count], MembersOf(w, s)[n].zone)
    ensures Step(f, w, Advance(id, input)) == w.(runners := w.runners[id := w.runners[id].(phase := Failed)])
  {
    StepIs(f, w, id, input);
    Effects(f, w, w.runners[id], input, []);
    hide EffectOf, Inv, Step, MembersOf, Contains;
  }

  /** A run that has stopped does nothing more. */
  lemma StoppedIsOver(f: Fixed, w: World, id: nat, e: Event)
    requires id in w.runners && e.id == id && (e.Start? || e.Advance?)
    ensures Step(f, w, Stop(id)) == w.(runners := w.runners[id := w.runners[id].(phase := Failed)])
    ensures Step(f, Step(f, w, Stop(id)), e) == Step(f, w, Stop(id))
  {
  }
}
