/**
 Static IPs of a service's members (createStaticIPs, createStaticIPsForZone, createNextIP and
 getUnassignedIPs in pkg/managesvc/service.go) on the network interfaces of the cloud
 (pkg/server/server.go). The cloud keeps an address on one interface: it refuses an address that is
 already on another one, as EC2 does (pkg/server/awsec2/ec2.go).
 */
module StaticIPs {
  import opened Text
  import opened NextIP
  import opened Records
  import opened Store

  datatype NetworkInterface = NetworkInterface(
    interfaceID: string, serverInstanceID: string, primaryPrivateIP: IP, privateIPs: seq<IP>)

  /** The interfaces of each zone. */
  type Nets = map<string, seq<NetworkInterface>>

  /** What net.ParseCIDR reads from the CIDR block of a zone. */
  datatype Subnet = Subnet(ip: IP, ipnet: IPNet)

  predicate On(nets: seq<NetworkInterface>, i: nat, a: nat, ip: IP) {
    i < |nets| && a < |nets[i].privateIPs| && nets[i].privateIPs[a] == ip
  }

  ghost predicate OnSome(nets: seq<NetworkInterface>, ip: IP) { exists i: nat, a: nat :: On(nets, i, a, ip) }

  ghost predicate OnZone(nets: Nets, zone: string, ip: IP) { zone in nets && OnSome(nets[zone], ip) }

  /** In one zone, an address is on one interface, once. */
  ghost predicate Apart(nets: seq<NetworkInterface>) {
    forall i: nat, a: nat, j: nat, b: nat, ip :: On(nets, i, a, ip) && On(nets, j, b, ip) ==> i == j && a == b
  }

  ghost predicate NetsOK(nets: Nets) {
    && (forall z :: z in nets ==> Apart(nets[z]))
    && (forall y, z, ip :: OnZone(nets, y, ip) && OnZone(nets, z, ip) ==> y == z)
    && (forall y, z, i, j ::
          (y in nets && z in nets && 0 <= i < |nets[y]| && 0 <= j < |nets[z]|
           && nets[y][i].interfaceID == nets[z][j].interfaceID) ==> y == z && i == j)
  }

  /** Interfaces stay, and addresses are only added. */
  ghost predicate NetsGrow(before: Nets, after: Nets) {
    && before.Keys == after.Keys
    && (forall z :: z in before ==> |before[z]| == |after[z]|)
    && (forall z, i :: z in before && 0 <= i < |before[z]| ==>
          after[z][i].interfaceID == before[z][i].interfaceID && after[z][i].primaryPrivateIP == before[z][i].primaryPrivateIP)
    && (forall z, ip :: OnZone(before, z, ip) ==> OnZone(after, z, ip))
  }

  predicate IsPrimary(nets: seq<NetworkInterface>, ip: IP) { exists i :: 0 <= i < |nets| && nets[i].primaryPrivateIP == ip }

  /** No other address of a zone is the primary address of one of its interfaces. */
  ghost predicate PrimariesApart(nets: Nets) {
    forall z, ip :: OnZone(nets, z, ip) ==> !IsPrimary(nets[z], ip)
  }

  /** The addresses that joined are in the zone, and are none of those in use. */
  ghost predicate JoinedUnused(before: Nets, after: Nets, zone: string, used: set<IP>) {
    forall z, ip :: OnZone(after, z, ip) && !OnZone(before, z, ip) ==> z == zone && ip !in used
  }

  ghost predicate HasInterface(nets: Nets, zone: string, interfaceID: string) {
    zone in nets && exists i :: 0 <= i < |nets[zone]| && nets[zone][i].interfaceID == interfaceID
  }

  class Server {
    var nets: Nets
    const subnets: map<string, Subnet>
    const reliable: bool

    ghost predicate Valid()
      reads this
    {
      && NetsOK(nets)
      && (forall z :: z in subnets ==> ValidNet(subnets[z].ipnet) && |subnets[z].ip| in {0, 4, 16})
    }

    constructor (nets: Nets, subnets: map<string, Subnet>, reliable: bool)
      requires NetsOK(nets) && forall z :: z in subnets ==> ValidNet(subnets[z].ipnet) && |subnets[z].ip| in {0, 4, 16}
      ensures Valid() && this.nets == nets && this.subnets == subnets && this.reliable == reliable
    {
      this.nets, this.subnets, this.reliable := nets, subnets, reliable;
    }

    /** The interfaces of the zone and the subnet they are in, or an error. */
    method GetNetworkInterfaces(zone: string) returns (r: Option<(seq<NetworkInterface>, Subnet)>)
      ensures r.Some? ==> zone in nets && zone in subnets && r.value == (nets[zone], subnets[zone])
      ensures reliable && zone in nets && zone in subnets ==> r.Some?
    {
      var available := *;
      r := if (available || reliable) && zone in nets && zone in subnets then Some((nets[zone], subnets[zone])) else None;
    }

    /** The interface gets an address that no interface has. An error may come after the effect. */
    method AssignStaticIP(zone: string, interfaceID: string, ip: IP) returns (ok: bool)
      requires Valid() && HasInterface(nets, zone, interfaceID)
      modifies this
      ensures Valid() && NetsGrow(old(nets), nets)
      ensures ok ==> |ip| == 16 && OnZone(nets, zone, ip)
      ensures ok ==> forall z :: !OnZone(old(nets), z, ip)
      ensures forall z, x :: OnZone(nets, z, x) && !OnZone(old(nets), z, x) ==> z == zone && x == ip && |ip| == 16
      ensures reliable && |ip| == 16 && (forall z :: !OnZone(old(nets), z, ip)) ==> ok
    {
      var granted, replied := *, *;
      if reliable {
        granted, replied := true, true;
        forall z | z in nets ensures Has(nets[z], ip) <==> OnZone(nets, z, ip) { HasIsOnSome(nets[z], ip); }
      }
      if !granted || |ip| != 16 || exists z :: z in nets && Has(nets[z], ip) {
        return false;
      }
      var i :| 0 <= i < |nets[zone]| && nets[zone][i].interfaceID == interfaceID;
      ghost var before := nets;
      AddIsFine(nets, zone, i, ip);
      nets := nets[zone := AddIP(nets[zone], i, ip)];
      ok := replied;
    }
  }

  predicate Has(nets: seq<NetworkInterface>, ip: IP) {
    exists i :: 0 <= i < |nets| && ip in nets[i].privateIPs
  }

  function AddIP(nets: seq<NetworkInterface>, i: nat, ip: IP): seq<NetworkInterface>
    requires i < |nets|
  {
    nets[i := nets[i].(privateIPs := nets[i].privateIPs + [ip])]
  }

  lemma HasIsOnSome(nets: seq<NetworkInterface>, ip: IP)
    ensures Has(nets, ip) <==> OnSome(nets, ip)
  {
    if Has(nets, ip) {
      var i: nat :| i < |nets| && ip in nets[i].privateIPs;
      var a: nat :| a < |nets[i].privateIPs| && nets[i].privateIPs[a] == ip;
      assert On(nets, i, a, ip);
    }
    if OnSome(nets, ip) {
      var i: nat, a: nat :| On(nets, i, a, ip);
      assert ip in nets[i].privateIPs;
    }
  }

  lemma AddedIsOn(nets: seq<NetworkInterface>, k: nat, ip: IP, i: nat, a: nat, x: IP)
    requires k < |nets|
    ensures On(AddIP(nets, k, ip), i, a, x) <==> On(nets, i, a, x) || (i == k && a == |nets[k].privateIPs| && x == ip)
  {
  }

  lemma AddedInZone(nets: seq<NetworkInterface>, k: nat, ip: IP)
    requires k < |nets| && Apart(nets) && !OnSome(nets, ip)
    ensures Apart(AddIP(nets, k, ip))
    ensures forall x :: OnSome(AddIP(nets, k, ip), x) <==> OnSome(nets, x) || x == ip
  {
    var nets' := AddIP(nets, k, ip);
    forall i: nat, a: nat, x ensures On(nets', i, a, x) <==> On(nets, i, a, x) || (i == k && a == |nets[k].privateIPs| && x == ip) {
      AddedIsOn(nets, k, ip, i, a, x);
    }
    hide AddIP, On;
    assert On(nets', k, |nets[k].privateIPs|, ip);
    forall x ensures OnSome(nets', x) <==> OnSome(nets, x) || x == ip {
      if OnSome(nets, x) {
        var i: nat, a: nat :| On(nets, i, a, x);
        assert On(nets', i, a, x);
      }
    }
  }

  lemma AddIsFine(nets: Nets, zone: string, k: nat, ip: IP)
    requires NetsOK(nets) && zone in nets && k < |nets[zone]| && forall z :: z in nets ==> !Has(nets[z], ip)
    ensures var nets' := nets[zone := AddIP(nets[zone], k, ip)];
            NetsOK(nets') && NetsGrow(nets, nets') && OnZone(nets', zone, ip)
    ensures forall z :: !OnZone(nets, z, ip)
    ensures var nets' := nets[zone := AddIP(nets[zone], k, ip)];
            forall z, x :: OnZone(nets', z, x) <==> OnZone(nets, z, x) || (z == zone && x == ip)
  {
    forall z | z in nets ensures !OnSome(nets[z], ip) { HasIsOnSome(nets[z], ip); }
    AddedInZone(nets[zone], k, ip);
    hide OnSome, Apart, On, Has;
    var nets' := nets[zone := AddIP(nets[zone], k, ip)];
    assert forall z, x :: OnZone(nets', z, x) <==> OnZone(nets, z, x) || (z == zone && x == ip);
    assert NetsGrow(nets, nets');
  }

  // ---------------------------------------------------------------- adopting leftovers

  /** IP records are only added, and those added are the service's. */
  ghost predicate IPsAdded(before: map<IP, ServiceStaticIP>, after: map<IP, ServiceStaticIP>, uuid: string) {
    && (forall ip :: ip in before ==> ip in after && after[ip] == before[ip])
    && (forall ip :: ip in after && ip !in before ==> after[ip].serviceUUID == uuid && after[ip].staticIP == ip)
  }

  /** Recorded for the service, each once, and no listed member has it. */
  ghost predicate PoolOK(ips: map<IP, ServiceStaticIP>, uuid: string, taken: set<IP>, pool: seq<ServiceStaticIP>) {
    && (forall k :: 0 <= k < |pool| ==>
          && pool[k].staticIP in ips && ips[pool[k].staticIP] == pool[k] && pool[k].serviceUUID == uuid
          && pool[k].staticIP !in taken)
    && (forall j, k :: 0 <= j < k < |pool| ==> pool[j].staticIP != pool[k].staticIP)
  }

  ghost predicate InPool(pool: seq<ServiceStaticIP>, ip: IP) {
    exists k :: 0 <= k < |pool| && pool[k].staticIP == ip
  }

  /** An address the service may use: no listed member has it, and it is not recorded for another service. */
  predicate Usable(ips: map<IP, ServiceStaticIP>, uuid: string, taken: set<IP>, ip: IP) {
    ip !in taken && (ip in ips ==> ips[ip].serviceUUID == uuid)
  }

  /** Records are kept under their own addresses. */
  ghost predicate WellKeyed(ips: map<IP, ServiceStaticIP>) {
    forall ip :: ip in ips ==> ips[ip].staticIP == ip
  }

  /** (j, b) comes before (i, a). */
  predicate Earlier(j: nat, b: nat, i: nat, a: nat) { j < i || (j == i && b < a) }

  ghost predicate Seen(nets: seq<NetworkInterface>, i: nat, a: nat, ip: IP) {
    exists j: nat, b: nat :: On(nets, j, b, ip) && Earlier(j, b, i, a)
  }

  /** The pool has the usable ones of the addresses before position (i, a); from there on there is no new record. */
  ghost predicate Scanned(before: map<IP, ServiceStaticIP>, ips: map<IP, ServiceStaticIP>, uuid: string, taken: set<IP>,
                          nets: seq<NetworkInterface>, i: nat, a: nat, pool: seq<ServiceStaticIP>) {
    && IPsAdded(before, ips, uuid) && PoolOK(ips, uuid, taken, pool)
    && (forall ip :: InPool(pool, ip) <==> Seen(nets, i, a, ip) && Usable(before, uuid, taken, ip))
    && (forall j: nat, b: nat, ip :: On(nets, j, b, ip) && !Earlier(j, b, i, a) && ip in ips ==> ip in before)
  }

  lemma SeenNext(nets: seq<NetworkInterface>, i: nat, a: nat, ip: IP)
    requires On(nets, i, a, ip)
    ensures forall x :: Seen(nets, i, a + 1, x) <==> Seen(nets, i, a, x) || x == ip
  {
    forall x ensures Seen(nets, i, a + 1, x) <==> Seen(nets, i, a, x) || x == ip {
      if Seen(nets, i, a, x) {
        var j: nat, b: nat :| On(nets, j, b, x) && Earlier(j, b, i, a);
        assert Earlier(j, b, i, a + 1);
      }
      if x == ip { assert On(nets, i, a, x) && Earlier(i, a, i, a + 1); }
    }
  }

  lemma NotSeenYet(nets: seq<NetworkInterface>, i: nat, a: nat, ip: IP)
    requires Apart(nets) && On(nets, i, a, ip)
    ensures !Seen(nets, i, a, ip)
  {
  }

  lemma SeenRow(nets: seq<NetworkInterface>, i: nat)
    requires i < |nets|
    ensures forall x :: Seen(nets, i, |nets[i].privateIPs|, x) <==> Seen(nets, i + 1, 0, x)
  {
    forall x ensures Seen(nets, i, |nets[i].privateIPs|, x) <==> Seen(nets, i + 1, 0, x) {
      if Seen(nets, i, |nets[i].privateIPs|, x) {
        var j: nat, b: nat :| On(nets, j, b, x) && Earlier(j, b, i, |nets[i].privateIPs|);
        assert Earlier(j, b, i + 1, 0);
      }
      if Seen(nets, i + 1, 0, x) {
        var j: nat, b: nat :| On(nets, j, b, x) && Earlier(j, b, i + 1, 0);
        assert Earlier(j, b, i, |nets[i].privateIPs|);
      }
    }
  }

  lemma SeenAll(nets: seq<NetworkInterface>)
    ensures forall x :: Seen(nets, |nets|, 0, x) <==> OnSome(nets, x)
  {
    forall x ensures Seen(nets, |nets|, 0, x) <==> OnSome(nets, x) {
      if OnSome(nets, x) {
        var j: nat, b: nat :| On(nets, j, b, x);
        assert Earlier(j, b, |nets|, 0);
      }
    }
  }

  lemma InPoolSnoc(pool: seq<ServiceStaticIP>, s: ServiceStaticIP)
    ensures forall ip :: InPool(pool + [s], ip) <==> InPool(pool, ip) || ip == s.staticIP
  {
    forall ip ensures InPool(pool + [s], ip) <==> InPool(pool, ip) || ip == s.staticIP {
      if InPool(pool, ip) {
        var k :| 0 <= k < |pool| && pool[k].staticIP == ip;
        assert (pool + [s])[k].staticIP == ip;
      }
      if ip == s.staticIP { assert (pool + [s])[|pool|].staticIP == ip; }
    }
  }

  /** An address joins the pool. */
  lemma PoolGrows(ips: map<IP, ServiceStaticIP>, ips': map<IP, ServiceStaticIP>, uuid: string, taken: set<IP>,
                  pool: seq<ServiceStaticIP>, s: ServiceStaticIP)
    requires PoolOK(ips, uuid, taken, pool) && IPsAdded(ips, ips', uuid)
    requires s.staticIP in ips' && ips'[s.staticIP] == s && s.serviceUUID == uuid && s.staticIP !in taken && !InPool(pool, s.staticIP)
    ensures PoolOK(ips', uuid, taken, pool + [s])
  {
    assert forall k :: 0 <= k < |pool| ==> pool[k].staticIP != s.staticIP;
  }

  lemma AddedTwice(a: map<IP, ServiceStaticIP>, b: map<IP, ServiceStaticIP>, c: map<IP, ServiceStaticIP>, uuid: string)
    requires IPsAdded(a, b, uuid) && IPsAdded(b, c, uuid)
    ensures IPsAdded(a, c, uuid)
  {
  }

  lemma RowDone(before: map<IP, ServiceStaticIP>, ips: map<IP, ServiceStaticIP>, uuid: string, taken: set<IP>,
                nets: seq<NetworkInterface>, i: nat, pool: seq<ServiceStaticIP>)
    requires i < |nets| && Scanned(before, ips, uuid, taken, nets, i, |nets[i].privateIPs|, pool)
    ensures Scanned(before, ips, uuid, taken, nets, i + 1, 0, pool)
  {
    hide InPool, Usable, IPsAdded, PoolOK;
    SeenRow(nets, i);
    forall j: nat, b: nat, ip | On(nets, j, b, ip) && !Earlier(j, b, i + 1, 0) && ip in ips ensures ip in before {
      assert !Earlier(j, b, i, |nets[i].privateIPs|);
    }
  }

  /** The address at (i, a) is passed over. */
  lemma Skipped(before: map<IP, ServiceStaticIP>, ips: map<IP, ServiceStaticIP>, uuid: string, taken: set<IP>,
                nets: seq<NetworkInterface>, i: nat, a: nat, pool: seq<ServiceStaticIP>, ip: IP)
    requires Scanned(before, ips, uuid, taken, nets, i, a, pool) && On(nets, i, a, ip)
    requires ip in taken || (ip in ips && ips[ip].serviceUUID != uuid)
    ensures Scanned(before, ips, uuid, taken, nets, i, a + 1, pool)
  {
    SeenNext(nets, i, a, ip);
    assert !Usable(before, uuid, taken, ip);
    hide InPool, Usable, PoolOK, IPsAdded, Seen;
  }

  /** The address at (i, a) joins the pool, with its record or a new one. */
  lemma Adopted(before: map<IP, ServiceStaticIP>, ips: map<IP, ServiceStaticIP>, ips': map<IP, ServiceStaticIP>,
                uuid: string, taken: set<IP>, nets: seq<NetworkInterface>, i: nat, a: nat,
                pool: seq<ServiceStaticIP>, s: ServiceStaticIP)
    requires Scanned(before, ips, uuid, taken, nets, i, a, pool) && On(nets, i, a, s.staticIP) && Apart(nets)
    requires s.staticIP !in taken && s.serviceUUID == uuid
    requires (ips' == ips && s.staticIP in ips && ips[s.staticIP] == s) || (s.staticIP !in ips && ips' == ips[s.staticIP := s])
    ensures Scanned(before, ips', uuid, taken, nets, i, a + 1, pool + [s])
  {
    var ip := s.staticIP;
    SeenNext(nets, i, a, ip);
    NotSeenYet(nets, i, a, ip);
    InPoolSnoc(pool, s);
    assert Usable(before, uuid, taken, ip) by { assert !Earlier(i, a, i, a); }
    hide Usable, InPool, Seen;
    assert IPsAdded(ips, ips', uuid);
    PoolGrows(ips, ips', uuid, taken, pool, s);
    AddedTwice(before, ips, ips', uuid);
    hide IPsAdded, PoolOK;
    forall j: nat, b: nat, x | On(nets, j, b, x) && !Earlier(j, b, i, a + 1) && x in ips' ensures x in before {
      assert !Earlier(j, b, i, a);
      assert x != ip;
    }
  }

  /** One address: its record, a new one, or none when it is another service's. */
  method Adopt(db: DB, uuid: string, zone: string, net: NetworkInterface, ip: IP)
    returns (failed: bool, s: Option<ServiceStaticIP>)
    requires db.Valid() && WellKeyed(db.ipMap)
    modifies db
    ensures db.Valid() && db.Contents() == old(db.Contents()).(ips := db.ipMap)
    ensures WellKeyed(db.ipMap) && IPsAdded(old(db.ipMap), db.ipMap, uuid)
    ensures !failed && s.None? ==> db.ipMap == old(db.ipMap) && ip in db.ipMap && db.ipMap[ip].serviceUUID != uuid
    ensures !failed && s.Some? ==> s.value.staticIP == ip && s.value.serviceUUID == uuid
    ensures !failed && s.Some? ==>
              if ip in old(db.ipMap) then db.ipMap == old(db.ipMap) && s.value == db.ipMap[ip]
              else db.ipMap == old(db.ipMap)[ip := s.value]
                   && s.value == ServiceStaticIP(ip, 0, uuid, zone, net.serverInstanceID, net.interfaceID)
    ensures db.reliable ==> !failed
  {
    failed, s := false, None;
    var got := db.GetServiceStaticIP(ip);
    match got {
      case Error(e) =>
        if e != RecordNotFound {
          return true, None;
        }
        var serviceip := ServiceStaticIP(ip, 0, uuid, zone, net.serverInstanceID, net.interfaceID);
        var err := db.CreateServiceStaticIP(serviceip);
        if err.Some? {
          return true, None;
        }
        s := Some(serviceip);
      case Got(serviceip) =>
        if serviceip.serviceUUID == uuid {
          s := Some(serviceip);
        }
    }
  }

  /** Each address of the pool has its record, and one that had none has that of the interface it is on. */
  ghost predicate Recorded(before: map<IP, ServiceStaticIP>, ips: map<IP, ServiceStaticIP>, uuid: string, zone: string,
                           nets: seq<NetworkInterface>, pool: seq<ServiceStaticIP>) {
    forall k :: 0 <= k < |pool| ==>
      && pool[k].staticIP in ips && ips[pool[k].staticIP] == pool[k]
      && (pool[k].staticIP in before || exists i: nat, a: nat :: IsRecordOf(uuid, zone, nets, i, a, pool[k]))
  }

  predicate IsRecordOf(uuid: string, zone: string, nets: seq<NetworkInterface>, i: nat, a: nat, s: ServiceStaticIP) {
    && On(nets, i, a, s.staticIP)
    && s == ServiceStaticIP(s.staticIP, 0, uuid, zone, nets[i].serverInstanceID, nets[i].interfaceID)
  }

  lemma RecordedNext(before: map<IP, ServiceStaticIP>, ips: map<IP, ServiceStaticIP>, ips': map<IP, ServiceStaticIP>, uuid: string,
                     zone: string, nets: seq<NetworkInterface>, pool: seq<ServiceStaticIP>, i: nat, a: nat, s: ServiceStaticIP)
    requires Recorded(before, ips, uuid, zone, nets, pool) && IPsAdded(before, ips, uuid) && IPsAdded(ips, ips', uuid)
    requires On(nets, i, a, s.staticIP) && s.staticIP in ips' && ips'[s.staticIP] == s
    requires s.staticIP !in ips ==> IsRecordOf(uuid, zone, nets, i, a, s)
    requires s.staticIP in ips && s.staticIP !in before ==> exists j: nat, b: nat :: IsRecordOf(uuid, zone, nets, j, b, s)
    ensures Recorded(before, ips', uuid, zone, nets, pool + [s])
  {
    hide On, IsRecordOf;
  }

  /** The addresses that are there for the taking: on the interfaces and usable, each once. */
  ghost predicate Adoptable(ips: map<IP, ServiceStaticIP>, uuid: string, taken: set<IP>, nets: seq<NetworkInterface>,
                            pool: seq<ServiceStaticIP>) {
    && (forall j, k :: 0 <= j < k < |pool| ==> pool[j].staticIP != pool[k].staticIP)
    && forall ip :: InPool(pool, ip) <==> OnSome(nets, ip) && Usable(ips, uuid, taken, ip)
  }

  /**
   The addresses on the interfaces that the service may use, all of them and no others, each recorded
   for the service by now.
   */
  method GetUnassignedIPs(db: DB, uuid: string, nets: seq<NetworkInterface>, zone: string, taken: set<IP>)
    returns (r: Option<seq<ServiceStaticIP>>)
    requires db.Valid() && Apart(nets) && WellKeyed(db.ipMap)
    modifies db
    ensures db.Valid() && db.Contents() == old(db.Contents()).(ips := db.ipMap)
    ensures IPsAdded(old(db.ipMap), db.ipMap, uuid) && WellKeyed(db.ipMap)
    ensures r.Some? ==> PoolOK(db.ipMap, uuid, taken, r.value)
    ensures r.Some? ==> Adoptable(old(db.ipMap), uuid, taken, nets, r.value)
    ensures r.Some? ==> Recorded(old(db.ipMap), db.ipMap, uuid, zone, nets, r.value)
    ensures db.reliable ==> r.Some?
  {
    hide Scanned, PoolOK, InPool, OnSome, Usable, IPsAdded, Apart, WellKeyed, Recorded, Adoptable, IsRecordOf;
    var pool: seq<ServiceStaticIP> := [];
    ghost var before := db.ipMap;
    NothingScanned(before, uuid, taken, nets);
    assert Recorded(before, before, uuid, zone, nets, []) by { NothingRecorded(before, uuid, zone, nets); }
    for i := 0 to |nets|
      invariant db.Valid() && db.Contents() == old(db.Contents()).(ips := db.ipMap)
      invariant WellKeyed(db.ipMap) && Scanned(before, db.ipMap, uuid, taken, nets, i, 0, pool)
      invariant Recorded(before, db.ipMap, uuid, zone, nets, pool)
    {
      var ips := nets[i].privateIPs;
      for a := 0 to |ips|
        invariant db.Valid() && db.Contents() == old(db.Contents()).(ips := db.ipMap)
        invariant WellKeyed(db.ipMap) && Scanned(before, db.ipMap, uuid, taken, nets, i, a, pool)
        invariant Recorded(before, db.ipMap, uuid, zone, nets, pool)
      {
        var ip := ips[a];
        ghost var now := db.ipMap;
        ScannedAdds(before, now, uuid, taken, nets, i, a, pool);
        if ip in taken {
          Skipped(before, now, uuid, taken, nets, i, a, pool, ip);
          continue;
        }
        var failed, s := Adopt(db, uuid, zone, nets[i], ip);
        AddedTwice(before, now, db.ipMap, uuid);
        if failed {
          return None;
        }
        if s.Some? {
          NotRecordedYet(before, now, uuid, taken, nets, i, a, pool, ip);
          AdoptedRecord(now, db.ipMap, uuid, zone, nets, i, a, ip, s.value);
          RecordedNext(before, now, db.ipMap, uuid, zone, nets, pool, i, a, s.value);
          Adopted(before, now, db.ipMap, uuid, taken, nets, i, a, pool, s.value);
          pool := pool + [s.value];
        } else {
          Skipped(before, now, uuid, taken, nets, i, a, pool, ip);
        }
      }
      RowDone(before, db.ipMap, uuid, taken, nets, i, pool);
    }
    AllScanned(before, db.ipMap, uuid, taken, nets, pool);
    r := Some(pool);
  }

  lemma NotRecordedYet(before: map<IP, ServiceStaticIP>, ips: map<IP, ServiceStaticIP>, uuid: string, taken: set<IP>,
                       nets: seq<NetworkInterface>, i: nat, a: nat, pool: seq<ServiceStaticIP>, ip: IP)
    requires Scanned(before, ips, uuid, taken, nets, i, a, pool) && On(nets, i, a, ip)
    ensures ip in ips ==> ip in before
  {
    hide InPool, Usable, IPsAdded, PoolOK;
    assert !Earlier(i, a, i, a);
  }

  lemma AdoptedRecord(ips: map<IP, ServiceStaticIP>, ips': map<IP, ServiceStaticIP>, uuid: string, zone: string,
                      nets: seq<NetworkInterface>, i: nat, a: nat, ip: IP, s: ServiceStaticIP)
    requires On(nets, i, a, ip) && s.staticIP == ip
    requires if ip in ips then ips' == ips && s == ips[ip]
             else ips' == ips[ip := s] && s == ServiceStaticIP(ip, 0, uuid, zone, nets[i].serverInstanceID, nets[i].interfaceID)
    ensures ip in ips' && ips'[ip] == s && (ip !in ips ==> IsRecordOf(uuid, zone, nets, i, a, s))
  {
  }

  lemma NothingScanned(before: map<IP, ServiceStaticIP>, uuid: string, taken: set<IP>, nets: seq<NetworkInterface>)
    ensures Scanned(before, before, uuid, taken, nets, 0, 0, [])
  {
  }

  lemma NothingRecorded(before: map<IP, ServiceStaticIP>, uuid: string, zone: string, nets: seq<NetworkInterface>)
    ensures Recorded(before, before, uuid, zone, nets, [])
  {
  }

  lemma ScannedAdds(before: map<IP, ServiceStaticIP>, ips: map<IP, ServiceStaticIP>, uuid: string, taken: set<IP>,
                    nets: seq<NetworkInterface>, i: nat, a: nat, pool: seq<ServiceStaticIP>)
    requires Scanned(before, ips, uuid, taken, nets, i, a, pool)
    ensures IPsAdded(before, ips, uuid)
  {
  }

  lemma AllScanned(before: map<IP, ServiceStaticIP>, ips: map<IP, ServiceStaticIP>, uuid: string, taken: set<IP>,
                   nets: seq<NetworkInterface>, pool: seq<ServiceStaticIP>)
    requires Scanned(before, ips, uuid, taken, nets, |nets|, 0, pool)
    ensures IPsAdded(before, ips, uuid) && PoolOK(ips, uuid, taken, pool) && Adoptable(before, uuid, taken, nets, pool)
  {
    SeenAll(nets);
  }

  // ---------------------------------------------------------------- new addresses

  lemma {:induction false} CandidateOfCandidate(start: IP, j: nat, k: nat)
    ensures Candidate(Candidate(start, j), k) == Candidate(start, j + k)
  {
    if k > 0 { CandidateOfCandidate(start, j, k - 1); }
  }

  lemma FirstCandidate(start: IP)
    ensures Candidate(start, 0) == start
  {
  }

  ghost predicate OnChain(start: IP, ip: IP) { exists k: nat :: k > 0 && ip == Candidate(start, k) }

  /** What the search finds from an address of the chain is further on the chain; it finds nothing from nil. */
  lemma FoundOnChain(used: set<IP>, ipnet: IPNet, start: IP, j: nat, last: IP, r: Result) returns (k: nat)
    requires ValidNet(ipnet) && |last| in {0, 4, 16} && (|last| == 0 || To16(last) == Candidate(start, j))
    requires r.Found? && exists k: nat :: StopsAt(used, ipnet, To16(last), k, r)
    ensures |r.ip| == 16 && r.ip !in used && To16(r.ip) == Candidate(start, k) && OnChain(start, r.ip)
  {
    hide Next, Pow2, V4;
    var m: nat :| StopsAt(used, ipnet, To16(last), m, r);
    PassedAt(used, ipnet, To16(last), m, 0);
    assert |last| > 0;
    CandidateOfCandidate(start, j, m);
    k := j + m;
    assert r.ip == Candidate(start, k);
  }

  /**
   The next address that is not used and that the cloud grants: a later one on the chain of the last
   address. The error of the search is dropped, as in the source; the cloud refuses what it leaves.
   */
  method CreateNextIP(server: Server, used: set<IP>, ipnet: IPNet, lastIP: IP, zone: string, interfaceID: string)
    returns (r: Option<IP>)
    requires server.Valid() && HasInterface(server.nets, zone, interfaceID)
    requires ValidNet(ipnet) && |lastIP| in {0, 4, 16}
    modifies server
    ensures server.Valid() && NetsGrow(old(server.nets), server.nets)
    ensures r.Some? ==> |r.value| == 16 && OnZone(server.nets, zone, r.value) && r.value !in used
    ensures r.Some? ==> OnChain(To16(lastIP), r.value)
    ensures JoinedUnused(old(server.nets), server.nets, zone, used)
    ensures server.reliable ==> forall ip :: FirstUnused(used, ipnet, lastIP, ip) && (forall z :: !OnZone(old(server.nets), z, ip)) ==> r == Some(ip)
  {
    hide NetsOK, OnZone, StopsAt, Candidate, OnChain, NetsGrow, Contains, JoinedUnused, FirstUnused;
    var last := lastIP;
    ghost var start := To16(lastIP);
    NetsStay(server.nets);
    ghost var nets0 := server.nets;
    NoneJoined(nets0, zone, used);
    ghost var j: nat := 0;
    assert Candidate(start, 0) == start by { FirstCandidate(start); }
    for i := 0 to MAX_RETRY_COUNT
      invariant server.Valid() && NetsGrow(old(server.nets), server.nets)
      invariant |last| in {0, 4, 16} && (|last| == 0 || To16(last) == Candidate(start, j))
      invariant JoinedUnused(nets0, server.nets, zone, used) && (i == 0 ==> last == lastIP && server.nets == nets0)
      invariant server.reliable && i > 0 ==>
                  forall ip :: FirstUnused(used, ipnet, lastIP, ip) ==> exists z :: OnZone(nets0, z, ip)
    {
      var next := GetNextIP(used, ipnet, last);
      TheFirstUnused(used, ipnet, last, next);
      var nextIP: IP := [];
      if next.Found? {
        nextIP := next.ip;
        j := FoundOnChain(used, ipnet, start, j, last, next);
      }
      ghost var before := server.nets;
      assert HasInterface(server.nets, zone, interfaceID) by { HasInterfaceStays(old(server.nets), before, zone, interfaceID); }
      var ok := server.AssignStaticIP(zone, interfaceID, nextIP);
      NetsGrowTwice(old(server.nets), before, server.nets);
      OneJoined(nets0, before, server.nets, zone, used, nextIP);
      if ok {
        return Some(nextIP);
      }
      last := nextIP;
    }
    r := None;
  }

  /** The search from the address finds this one. */
  ghost predicate FirstUnused(used: set<IP>, ipnet: IPNet, last: IP, ip: IP)
    requires ValidNet(ipnet) && |last| in {0, 4, 16}
  {
    |ip| == 16 && exists k: nat :: StopsAt(used, ipnet, To16(last), k, Found(ip))
  }

  lemma TheFirstUnused(used: set<IP>, ipnet: IPNet, last: IP, r: Result)
    requires ValidNet(ipnet) && |last| in {0, 4, 16} && exists k: nat :: StopsAt(used, ipnet, To16(last), k, r)
    ensures forall ip :: FirstUnused(used, ipnet, last, ip) ==> r == Found(ip)
  {
    var j: nat :| StopsAt(used, ipnet, To16(last), j, r);
    forall ip | FirstUnused(used, ipnet, last, ip) ensures r == Found(ip) {
      var k: nat :| StopsAt(used, ipnet, To16(last), k, Found(ip));
      StopIsUnique(used, ipnet, To16(last), j, r, k, Found(ip));
    }
  }

  lemma NoneJoined(nets: Nets, zone: string, used: set<IP>)
    ensures JoinedUnused(nets, nets, zone, used)
  {
  }

  lemma OneJoined(a: Nets, b: Nets, c: Nets, zone: string, used: set<IP>, ip: IP)
    requires JoinedUnused(a, b, zone, used) && (|ip| == 16 ==> ip !in used)
    requires forall z, x :: OnZone(c, z, x) && !OnZone(b, z, x) ==> z == zone && x == ip && |ip| == 16
    ensures JoinedUnused(a, c, zone, used)
  {
    hide OnZone;
  }

  lemma JoinedTwice(a: Nets, b: Nets, c: Nets, zone: string, used: set<IP>)
    requires JoinedUnused(a, b, zone, used) && JoinedUnused(b, c, zone, used)
    ensures JoinedUnused(a, c, zone, used)
  {
    hide OnZone;
  }

  lemma NetsStay(nets: Nets)
    ensures NetsGrow(nets, nets)
  {
  }

  lemma NetsGrowTwice(a: Nets, b: Nets, c: Nets)
    requires NetsGrow(a, b) && NetsGrow(b, c)
    ensures NetsGrow(a, c)
  {
    hide OnZone;
  }

  lemma HasInterfaceStays(a: Nets, b: Nets, zone: string, interfaceID: string)
    requires NetsGrow(a, b) && HasInterface(a, zone, interfaceID)
    ensures HasInterface(b, zone, interfaceID)
  {
    hide OnZone;
    var i: nat :| i < |a[zone]| && a[zone][i].interfaceID == interfaceID;
    assert b[zone][i].interfaceID == interfaceID;
  }

  function InsertByIPs(x: NetworkInterface, s: seq<NetworkInterface>): (r: seq<NetworkInterface>)
    ensures multiset(r) == multiset(s) + multiset{x}
  {
    if s == [] || |x.privateIPs| <= |s[0].privateIPs| then [x] + s
    else
      assert s == [s[0]] + s[1..];
      [s[0]] + InsertByIPs(x, s[1..])
  }

  /** sort.Slice by the number of addresses. */
  function SortByIPs(s: seq<NetworkInterface>): (r: seq<NetworkInterface>)
    ensures multiset(r) == multiset(s)
  {
    if s == [] then []
    else
      assert s == [s[0]] + s[1..];
      InsertByIPs(s[0], SortByIPs(s[1..]))
  }

  predicate Ascending(s: seq<NetworkInterface>) {
    forall i, j :: 0 <= i < j < |s| ==> |s[i].privateIPs| <= |s[j].privateIPs|
  }

  lemma {:induction false} InsertAscending(x: NetworkInterface, s: seq<NetworkInterface>)
    requires Ascending(s)
    ensures Ascending(InsertByIPs(x, s))
  {
    if s == [] || |x.privateIPs| <= |s[0].privateIPs| {
      assert InsertByIPs(x, s) == [x] + s;
    } else {
      var r := InsertByIPs(x, s[1..]);
      InsertAscending(x, s[1..]);
      assert multiset(r) == multiset(s[1..]) + multiset{x};
      hide InsertByIPs;
      forall j | 0 <= j < |r| ensures |s[0].privateIPs| <= |r[j].privateIPs| {
        assert r[j] in multiset(r);
      }
      assert Ascending([s[0]] + r);
    }
  }

  lemma {:induction false} SortAscending(s: seq<NetworkInterface>)
    ensures Ascending(SortByIPs(s))
  {
    if s != [] {
      SortAscending(s[1..]);
      InsertAscending(s[0], SortByIPs(s[1..]));
    }
  }

  /** The address is recorded for interface number k of the round over the interfaces. */
  predicate OnTurn(uuid: string, zone: string, sorted: seq<NetworkInterface>, k: nat, s: ServiceStaticIP) {
    && sorted != []
    && var net := sorted[k % |sorted|];
       s == ServiceStaticIP(s.staticIP, 0, uuid, zone, net.serverInstanceID, net.interfaceID)
  }

  lemma TurnOf(uuid: string, zone: string, sorted: seq<NetworkInterface>, k: nat, s: ServiceStaticIP)
    requires sorted != []
    requires var net := sorted[k % |sorted|]; s == ServiceStaticIP(s.staticIP, 0, uuid, zone, net.serverInstanceID, net.interfaceID)
    ensures OnTurn(uuid, zone, sorted, k, s)
  {
  }

  predicate InTurn(uuid: string, zone: string, sorted: seq<NetworkInterface>, adopted: nat, pool: seq<ServiceStaticIP>) {
    forall i :: adopted <= i < |pool| ==> OnTurn(uuid, zone, sorted, i - adopted, pool[i])
  }

  lemma NextInTurn(uuid: string, zone: string, sorted: seq<NetworkInterface>, adopted: nat, pool: seq<ServiceStaticIP>, s: ServiceStaticIP)
    requires InTurn(uuid, zone, sorted, adopted, pool) && adopted <= |pool| && OnTurn(uuid, zone, sorted, |pool| - adopted, s)
    ensures InTurn(uuid, zone, sorted, adopted, pool + [s])
  {
    hide OnTurn;
  }

  /** No interface has the address, as its primary or any other. */
  predicate OnNone(nets: seq<NetworkInterface>, ip: IP) {
    forall i :: 0 <= i < |nets| ==> ip != nets[i].primaryPrivateIP && ip !in nets[i].privateIPs
  }

  /** From `adopted` on: addresses that no interface had, on the chain from the subnet's address. */
  ghost predicate NewOnes(nets: seq<NetworkInterface>, start: IP, adopted: nat, pool: seq<ServiceStaticIP>) {
    forall k :: adopted <= k < |pool| ==> OnNone(nets, pool[k].staticIP) && OnChain(start, pool[k].staticIP)
  }

  lemma OneNew(nets: seq<NetworkInterface>, start: IP, adopted: nat, pool: seq<ServiceStaticIP>, s: ServiceStaticIP,
               sorted: seq<NetworkInterface>, used: set<IP>, last: IP)
    requires NewOnes(nets, start, adopted, pool) && adopted <= |pool| && multiset(sorted) == multiset(nets)
    requires AreUsed(sorted, used)
    requires s.staticIP !in used && OnChain(last, s.staticIP) && (last == start || OnChain(start, last))
    ensures NewOnes(nets, start, adopted, pool + [s]) && OnChain(start, s.staticIP)
  {
    forall i | 0 <= i < |nets| ensures s.staticIP != nets[i].primaryPrivateIP && s.staticIP !in nets[i].privateIPs {
      assert nets[i] in multiset(sorted);
    }
    ChainTwice(start, last, s.staticIP);
    hide OnChain;
  }

  /** After the adopted addresses come new ones, of which the last is `last`. */
  ghost predicate Round(nets: seq<NetworkInterface>, start: IP, uuid: string, zone: string, sorted: seq<NetworkInterface>,
                        adopted: seq<ServiceStaticIP>, pool: seq<ServiceStaticIP>, last: IP) {
    && adopted <= pool && InTurn(uuid, zone, sorted, |adopted|, pool) && NewOnes(nets, start, |adopted|, pool)
    && (last == start || OnChain(start, last))
  }

  lemma RoundStarts(nets: seq<NetworkInterface>, start: IP, uuid: string, zone: string, pool: seq<ServiceStaticIP>)
    ensures forall sorted :: Round(nets, start, uuid, zone, sorted, pool, pool, start)
    ensures forall sorted :: InTurn(uuid, zone, sorted, |pool|, pool)
    ensures NewOnes(nets, start, |pool|, pool) && pool[..|pool|] == pool
  {
    hide OnTurn;
  }

  lemma RoundNext(nets: seq<NetworkInterface>, start: IP, uuid: string, zone: string, sorted: seq<NetworkInterface>,
                  adopted: seq<ServiceStaticIP>, pool: seq<ServiceStaticIP>, s: ServiceStaticIP, used: set<IP>, last: IP, k: nat)
    requires Round(nets, start, uuid, zone, sorted, adopted, pool, last) && |pool| == |adopted| + k && OnTurn(uuid, zone, sorted, k, s)
    requires multiset(sorted) == multiset(nets) && AreUsed(sorted, used) && s.staticIP !in used && OnChain(last, s.staticIP)
    ensures Round(nets, start, uuid, zone, sorted, adopted, pool + [s], s.staticIP)
  {
    hide OnTurn, OnChain, AreUsed, NewOnes, InTurn;
    OneNew(nets, start, |adopted|, pool, s, sorted, used, last);
    NextInTurn(uuid, zone, sorted, |adopted|, pool, s);
  }

  lemma RoundEnds(nets: seq<NetworkInterface>, start: IP, uuid: string, zone: string, sorted: seq<NetworkInterface>,
                  adopted: seq<ServiceStaticIP>, pool: seq<ServiceStaticIP>, last: IP)
    requires Round(nets, start, uuid, zone, sorted, adopted, pool, last)
    ensures InTurn(uuid, zone, sorted, |adopted|, pool) && NewOnes(nets, start, |adopted|, pool)
    ensures |adopted| <= |pool| && pool[..|adopted|] == adopted
  {
    hide InTurn, NewOnes;
  }

  lemma ChainTwice(start: IP, mid: IP, ip: IP)
    ensures OnChain(start, mid) && OnChain(mid, ip) ==> OnChain(start, ip)
  {
    if OnChain(start, mid) && OnChain(mid, ip) {
      var j: nat :| j > 0 && mid == Candidate(start, j);
      var k: nat :| k > 0 && ip == Candidate(mid, k);
      CandidateOfCandidate(start, j, k);
      assert ip == Candidate(start, j + k);
    }
  }

  predicate PrimariesIn(nets: seq<NetworkInterface>, used: set<IP>) {
    forall i :: 0 <= i < |nets| ==> nets[i].primaryPrivateIP in used
  }

  lemma SamePrimaries(nets: Nets, nets': Nets, z: string, ip: IP)
    requires NetsGrow(nets, nets') && z in nets
    ensures IsPrimary(nets'[z], ip) <==> IsPrimary(nets[z], ip)
  {
    hide OnZone;
    assert forall i :: 0 <= i < |nets[z]| ==> nets'[z][i].primaryPrivateIP == nets[z][i].primaryPrivateIP;
  }

  /** Addresses joined in this zone only. */
  ghost predicate OnlyZone(before: Nets, after: Nets, zone: string) {
    forall z, ip :: z != zone ==> (OnZone(before, z, ip) <==> OnZone(after, z, ip))
  }

  lemma JoinedInZone(before: Nets, after: Nets, zone: string, used: set<IP>)
    requires JoinedUnused(before, after, zone, used) && NetsGrow(before, after)
    ensures OnlyZone(before, after, zone)
  {
    hide OnZone;
  }

  /** Fewer than these are there for the taking. */
  ghost predicate TooFew(ips: map<IP, ServiceStaticIP>, uuid: string, taken: set<IP>, nets: seq<NetworkInterface>, counts: int) {
    exists pool :: Adoptable(ips, uuid, taken, nets, pool) && |pool| < counts
  }

  /** Addresses recorded for the service, and addresses of other zones, do not change what is there for the taking. */
  lemma AdoptableStays(ips: map<IP, ServiceStaticIP>, ips': map<IP, ServiceStaticIP>, uuid: string, taken: set<IP>,
                       nets: Nets, nets': Nets, z: string, counts: int)
    requires IPsAdded(ips, ips', uuid) && z in nets && z in nets' && forall ip :: OnZone(nets, z, ip) <==> OnZone(nets', z, ip)
    requires TooFew(ips', uuid, taken, nets'[z], counts)
    ensures TooFew(ips, uuid, taken, nets[z], counts)
  {
    var pool :| Adoptable(ips', uuid, taken, nets'[z], pool) && |pool| < counts;
    hide OnSome, InPool;
    assert forall ip :: Usable(ips, uuid, taken, ip) <==> Usable(ips', uuid, taken, ip);
    forall ip ensures OnSome(nets[z], ip) <==> OnSome(nets'[z], ip) { assert OnZone(nets, z, ip) <==> OnZone(nets', z, ip); }
    assert Adoptable(ips, uuid, taken, nets[z], pool);
  }

  lemma OthersJoined(a: Nets, b: Nets, c: Nets, zone: string, todo: set<string>)
    requires OnlyZone(b, c, zone) && zone in todo
    requires forall z, ip :: z in todo ==> (OnZone(a, z, ip) <==> OnZone(b, z, ip))
    ensures forall z, ip :: z in todo - {zone} ==> (OnZone(a, z, ip) <==> OnZone(c, z, ip))
  {
    hide OnZone;
  }

  /** Addresses that avoid all that are in use in the zone leave the primary ones alone. */
  lemma PrimariesStayApart(nets: Nets, nets': Nets, zone: string, used: set<IP>)
    requires NetsGrow(nets, nets') && JoinedUnused(nets, nets', zone, used)
    requires zone in nets && PrimariesIn(nets[zone], used)
    ensures PrimariesApart(nets) ==> PrimariesApart(nets')
  {
    forall z, ip | PrimariesApart(nets) && OnZone(nets', z, ip) ensures !IsPrimary(nets'[z], ip) {
      assert OnZone(nets, z, ip) ==> !IsPrimary(nets[z], ip);
      hide OnZone;
      if z in nets { SamePrimaries(nets, nets', z, ip); }
    }
  }

  lemma SortedAreSame(s: seq<NetworkInterface>, k: nat)
    requires k < |SortByIPs(s)|
    ensures |SortByIPs(s)| == |s| && SortByIPs(s)[k] in s
  {
    assert |multiset(SortByIPs(s))| == |multiset(s)|;
    assert SortByIPs(s)[k] in multiset(SortByIPs(s));
  }

  lemma SortedHasInterface(nets: Nets, zone: string, k: nat)
    requires zone in nets && k < |SortByIPs(nets[zone])|
    ensures HasInterface(nets, zone, SortByIPs(nets[zone])[k].interfaceID)
  {
    SortedAreSame(nets[zone], k);
  }

  ghost predicate AreUsed(nets: seq<NetworkInterface>, used: set<IP>) {
    forall ip :: ip in used <==> exists i :: 0 <= i < |nets| && (ip == nets[i].primaryPrivateIP || ip in nets[i].privateIPs)
  }

  /** The primary and the other addresses of the interfaces. */
  method UsedIPs(nets: seq<NetworkInterface>) returns (used: set<IP>)
    ensures AreUsed(nets, used)
  {
    used := {};
    for i := 0 to |nets|
      invariant forall ip :: ip in used <==> exists j :: 0 <= j < i && (ip == nets[j].primaryPrivateIP || ip in nets[j].privateIPs)
    {
      used := used + {nets[i].primaryPrivateIP} + (set ip | ip in nets[i].privateIPs);
    }
  }

  ghost predicate PoolInZone(nets: Nets, zone: string, pool: seq<ServiceStaticIP>) {
    forall k :: 0 <= k < |pool| ==> OnZone(nets, zone, pool[k].staticIP)
  }

  lemma PoolStaysInZone(a: Nets, b: Nets, zone: string, pool: seq<ServiceStaticIP>)
    requires PoolInZone(a, zone, pool) && NetsGrow(a, b)
    ensures PoolInZone(b, zone, pool)
  {
    hide OnZone;
  }

  lemma PoolStays(ips: map<IP, ServiceStaticIP>, ips': map<IP, ServiceStaticIP>, uuid: string, taken: set<IP>, pool: seq<ServiceStaticIP>)
    requires PoolOK(ips, uuid, taken, pool) && IPsAdded(ips, ips', uuid)
    ensures PoolOK(ips', uuid, taken, pool)
  {
  }

  lemma NewInPool(ips: map<IP, ServiceStaticIP>, uuid: string, taken: set<IP>, pool: seq<ServiceStaticIP>, s: ServiceStaticIP)
    requires PoolOK(ips, uuid, taken, pool) && s.staticIP !in ips && s.serviceUUID == uuid && forall ip :: ip in taken ==> ip in ips
    ensures PoolOK(ips[s.staticIP := s], uuid, taken, pool + [s]) && IPsAdded(ips, ips[s.staticIP := s], uuid)
  {
    assert !InPool(pool, s.staticIP);
    PoolGrows(ips, ips[s.staticIP := s], uuid, taken, pool, s);
  }

  /** The next address goes to an interface of the zone, gets its record and joins the pool. */
  method AddStaticIP(db: DB, server: Server, uuid: string, ghost taken: set<IP>, pool: seq<ServiceStaticIP>,
                     used: set<IP>, ipnet: IPNet, lastIP: IP, net: NetworkInterface, zone: string)
    returns (r: Option<ServiceStaticIP>)
    requires db.Valid() && server.Valid() && WellKeyed(db.ipMap)
    requires ValidNet(ipnet) && |lastIP| in {0, 4, 16} && HasInterface(server.nets, zone, net.interfaceID)
    requires PoolOK(db.ipMap, uuid, taken, pool) && PoolInZone(server.nets, zone, pool)
    requires forall ip :: ip in taken ==> ip in db.ipMap
    modifies db, server
    ensures db.Valid() && db.Contents() == old(db.Contents()).(ips := db.ipMap)
    ensures server.Valid() && NetsGrow(old(server.nets), server.nets)
    ensures IPsAdded(old(db.ipMap), db.ipMap, uuid) && WellKeyed(db.ipMap)
    ensures r.Some? ==> |r.value.staticIP| == 16 && r.value.staticIP !in used && OnChain(To16(lastIP), r.value.staticIP)
    ensures r.Some? ==> r.value == ServiceStaticIP(r.value.staticIP, 0, uuid, zone, net.serverInstanceID, net.interfaceID)
    ensures r.Some? ==> r.value.staticIP !in old(db.ipMap) && db.ipMap == old(db.ipMap)[r.value.staticIP := r.value]
    ensures r.Some? ==> PoolOK(db.ipMap, uuid, taken, pool + [r.value]) && PoolInZone(server.nets, zone, pool + [r.value])
    ensures JoinedUnused(old(server.nets), server.nets, zone, used)
    ensures server.reliable && db.reliable ==>
              forall ip :: FirstUnused(used, ipnet, lastIP, ip) && ip !in old(db.ipMap) && (forall z :: !OnZone(old(server.nets), z, ip))
                ==> r.Some? && r.value.staticIP == ip
  {
    hide PoolOK, InPool, OnSome, IPsAdded, NetsOK, NetsGrow, WellKeyed, JoinedUnused, FirstUnused;
    IPsSame(db.ipMap, uuid);
    ghost var ips := db.ipMap;
    var next := CreateNextIP(server, used, ipnet, lastIP, zone, net.interfaceID);
    if next.None? {
      return None;
    }
    var serviceip := ServiceStaticIP(next.value, 0, uuid, zone, net.serverInstanceID, net.interfaceID);
    var err := db.CreateServiceStaticIP(serviceip);
    CreatedOne(ips, db.ipMap, uuid, serviceip, db.lossy, err);
    if err.Some? {
      return None;
    }
    NewInPool(ips, uuid, taken, pool, serviceip);
    PoolStaysInZone(old(server.nets), server.nets, zone, pool);
    r := Some(serviceip);
  }

  /**
   The `adopted` addresses that are there for the taking, and new ones up to `counts`: those go to the
   interfaces in turn, from the one with the fewest addresses on. There is an interface when some are needed.
   */
  method CreateStaticIPsForZone(db: DB, server: Server, uuid: string, taken: set<IP>, counts: int, zone: string)
    returns (r: Option<seq<ServiceStaticIP>>, ghost adopted: nat, ghost sorted: seq<NetworkInterface>)
    requires db.Valid() && server.Valid() && WellKeyed(db.ipMap)
    requires forall ip :: ip in taken ==> ip in db.ipMap
    requires zone in server.nets && counts > 0 ==> server.nets[zone] != []
    modifies db, server
    ensures db.Valid() && db.Contents() == old(db.Contents()).(ips := db.ipMap)
    ensures server.Valid() && NetsGrow(old(server.nets), server.nets)
    ensures IPsAdded(old(db.ipMap), db.ipMap, uuid) && WellKeyed(db.ipMap)
    ensures r.Some? ==> |r.value| == if adopted >= counts then adopted else counts
    ensures r.Some? ==> PoolOK(db.ipMap, uuid, taken, r.value) && PoolInZone(server.nets, zone, r.value)
    ensures r.Some? && adopted < counts ==>
              zone in old(server.nets) && multiset(sorted) == multiset(old(server.nets)[zone]) && Ascending(sorted)
    ensures r.Some? ==> InTurn(uuid, zone, sorted, adopted, r.value)
    ensures r.Some? ==> zone in old(server.nets) && zone in server.subnets && adopted <= |r.value|
    ensures r.Some? ==> Adoptable(old(db.ipMap), uuid, taken, old(server.nets)[zone], r.value[..adopted])
    ensures r.Some? ==> NewOnes(old(server.nets)[zone], To16(server.subnets[zone].ip), adopted, r.value)
    ensures PrimariesApart(old(server.nets)) ==> PrimariesApart(server.nets)
    ensures OnlyZone(old(server.nets), server.nets, zone)
    ensures db.reliable && server.reliable && zone in old(server.nets) && zone in server.subnets && r.None? ==>
              TooFew(old(db.ipMap), uuid, taken, old(server.nets)[zone], counts)
  {
    hide PoolOK, InPool, OnSome, Usable, IPsAdded, Apart, NetsOK, NetsGrow, WellKeyed, PoolInZone, PrimariesApart, JoinedUnused;
    hide OnlyZone, TooFew, PrimariesIn, HasInterface, FirstUnused, OnTurn, Round, AreUsed, OnZone;
    hide SortByIPs, Ascending, InTurn, Adoptable, NewOnes, OnNone, Recorded, OnChain;
    adopted, sorted := 0, [];
    NetsStay(server.nets);
    NoneJoined(server.nets, zone, {});
    JoinedInZone(server.nets, server.nets, zone, {});
    IPsSame(db.ipMap, uuid);
    var got := server.GetNetworkInterfaces(zone);
    if got.None? {
      return None, adopted, sorted;
    }
    var (nets, subnet) := got.value;
    NetsApart(server.nets, zone);
    var unassigned := GetUnassignedIPs(db, uuid, nets, zone, taken);
    if unassigned.None? {
      return None, adopted, sorted;
    }
    var pool := unassigned.value;
    PoolFromZone(old(db.ipMap), uuid, taken, server.nets, zone, pool);
    RoundStarts(nets, To16(subnet.ip), uuid, zone, pool);
    if |pool| >= counts {
      return Some(pool), |pool|, [];
    }
    FewAdopted(old(db.ipMap), uuid, taken, nets, pool, counts);
    var sortedNets := SortByIPs(nets);
    SortAscending(nets);
    assert |sortedNets| == |nets| by { assert |multiset(sortedNets)| == |multiset(nets)|; }
    adopted, sorted := |pool|, sortedNets;
    var used := UsedIPs(sortedNets);
    var nextIP := subnet.ip;
    ghost var nets0, ips0 := server.nets, old(db.ipMap);
    var pendingCounts := counts - |pool|;
    TakenStay(taken, ips0, db.ipMap, uuid);
    NoneJoined(nets0, zone, used);
    PrimariesUsed(nets, sortedNets, used);
    for i := 0 to pendingCounts
      invariant db.Valid() && db.Contents() == old(db.Contents()).(ips := db.ipMap)
      invariant server.Valid() && NetsGrow(nets0, server.nets)
      invariant IPsAdded(ips0, db.ipMap, uuid) && WellKeyed(db.ipMap)
      invariant |pool| == adopted + i && PoolOK(db.ipMap, uuid, taken, pool) && PoolInZone(server.nets, zone, pool)
      invariant forall ip :: ip in taken ==> ip in db.ipMap
      invariant |nextIP| in {0, 4, 16}
      invariant Round(nets, To16(subnet.ip), uuid, zone, sorted, unassigned.value, pool, To16(nextIP))
      invariant OnlyZone(nets0, server.nets, zone)
      invariant JoinedUnused(nets0, server.nets, zone, used) && (PrimariesApart(nets0) ==> PrimariesApart(server.nets))
    {
      var net := sortedNets[i % |sortedNets|];
      SortedHasInterface(nets0, zone, i % |sortedNets|);
      HasInterfaceStays(nets0, server.nets, zone, net.interfaceID);
      ghost var nets1, ips1 := server.nets, db.ipMap;
      var added := AddStaticIP(db, server, uuid, taken, pool, used, subnet.ipnet, nextIP, net, zone);
      NetsGrowTwice(nets0, nets1, server.nets);
      AddedTwice(ips0, ips1, db.ipMap, uuid);
      JoinedTwice(nets0, nets1, server.nets, zone, used);
      JoinedInZone(nets0, server.nets, zone, used);
      PrimariesStayApart(nets0, server.nets, zone, used);
      if added.None? {
        return None, adopted, sorted;
      }
      assert OnTurn(uuid, zone, sorted, i, added.value) by { TurnOf(uuid, zone, sorted, i, added.value); }
      RoundNext(nets, To16(subnet.ip), uuid, zone, sorted, unassigned.value, pool, added.value, used, To16(nextIP), i);
      TakenStay(taken, ips1, db.ipMap, uuid);
      nextIP := added.value.staticIP;
      pool := pool + [added.value];
    }
    RoundEnds(nets, To16(subnet.ip), uuid, zone, sorted, unassigned.value, pool, To16(nextIP));
    r := Some(pool);
  }

  lemma FewAdopted(ips: map<IP, ServiceStaticIP>, uuid: string, taken: set<IP>, nets: seq<NetworkInterface>,
                   pool: seq<ServiceStaticIP>, counts: int)
    requires Adoptable(ips, uuid, taken, nets, pool) && |pool| < counts
    ensures TooFew(ips, uuid, taken, nets, counts)
  {
  }

  lemma TakenStay(taken: set<IP>, ips: map<IP, ServiceStaticIP>, ips': map<IP, ServiceStaticIP>, uuid: string)
    requires IPsAdded(ips, ips', uuid) && forall ip :: ip in taken ==> ip in ips
    ensures forall ip :: ip in taken ==> ip in ips'
  {
  }

  lemma IPsSame(ips: map<IP, ServiceStaticIP>, uuid: string)
    ensures IPsAdded(ips, ips, uuid)
  {
  }

  lemma NetsApart(nets: Nets, zone: string)
    requires NetsOK(nets) && zone in nets
    ensures Apart(nets[zone])
  {
  }

  lemma CreatedOne(ips: map<IP, ServiceStaticIP>, ips': map<IP, ServiceStaticIP>, uuid: string, s: ServiceStaticIP,
                   lossy: bool, err: Option<DBError>)
    requires Create(lossy, ips, s.staticIP, s, ips', err) && s.serviceUUID == uuid && WellKeyed(ips)
    ensures IPsAdded(ips, ips', uuid) && WellKeyed(ips')
    ensures err.None? ==> s.staticIP !in ips && ips' == ips[s.staticIP := s]
  {
  }

  lemma PrimariesUsed(nets: seq<NetworkInterface>, sorted: seq<NetworkInterface>, used: set<IP>)
    requires multiset(sorted) == multiset(nets)
    requires AreUsed(sorted, used)
    ensures PrimariesIn(nets, used)
  {
    forall k | 0 <= k < |nets| ensures nets[k].primaryPrivateIP in used {
      assert nets[k] in multiset(sorted);
    }
  }

  lemma PoolFromZone(before: map<IP, ServiceStaticIP>, uuid: string, taken: set<IP>,
                     nets: Nets, zone: string, pool: seq<ServiceStaticIP>)
    requires zone in nets && Adoptable(before, uuid, taken, nets[zone], pool)
    ensures PoolInZone(nets, zone, pool)
  {
    forall k | 0 <= k < |pool| ensures OnZone(nets, zone, pool[k].staticIP) { assert InPool(pool, pool[k].staticIP); }
  }

  // ---------------------------------------------------------------- all zones

  function ConfigZones(c: seq<ReplicaConfig>): (zones: seq<string>)
    ensures |zones| == |c|
  {
    seq(|c|, i requires 0 <= i < |c| => c[i].zone)
  }

  function MemberZones(ms: seq<ServiceMember>): (zones: seq<string>)
    ensures |zones| == |ms|
  {
    seq(|ms|, i requires 0 <= i < |ms| => ms[i].spec.availableZone)
  }

  function Count(s: seq<string>, z: string): nat {
    if s == [] then 0 else Count(s[..|s| - 1], z) + if s[|s| - 1] == z then 1 else 0
  }

  lemma CountNext(s: seq<string>, i: nat)
    requires i < |s|
    ensures forall z :: Count(s[..i + 1], z) == Count(s[..i], z) + if s[i] == z then 1 else 0
  {
    assert s[..i + 1][..i] == s[..i];
  }

  lemma {:induction false} CountNone(s: seq<string>, z: string)
    requires z !in s
    ensures Count(s, z) == 0
  {
    if s != [] { CountNone(s[..|s| - 1], z); }
  }

  /** The replicas of the zone that have no member yet; negative when there are more members than replicas. */
  function Pending(c: seq<ReplicaConfig>, ms: seq<ServiceMember>, zone: string): int {
    Count(ConfigZones(c), zone) - Count(MemberZones(ms), zone)
  }

  method ReplicasPerZone(c: seq<ReplicaConfig>) returns (pending: map<string, int>)
    ensures forall z :: z in pending <==> z in ConfigZones(c)
    ensures forall z :: z in pending ==> pending[z] == Count(ConfigZones(c), z)
  {
    hide Count;
    pending := map[];
    ghost var zones := ConfigZones(c);
    for i := 0 to |c|
      invariant forall z :: z in pending <==> z in zones[..i]
      invariant forall z :: z in pending ==> pending[z] == Count(zones[..i], z)
    {
      CountNext(zones, i);
      if c[i].zone in pending {
        pending := pending[c[i].zone := pending[c[i].zone] + 1];
      } else {
        CountNone(zones[..i], c[i].zone);
        pending := pending[c[i].zone := 1];
      }
    }
    assert zones[..|c|] == zones;
  }

  /** The number of replicas of each zone that have no member yet, or None for a member in a zone without replicas. */
  method PendingReplicas(c: seq<ReplicaConfig>, ms: seq<ServiceMember>) returns (r: Option<map<string, int>>)
    ensures r.None? <==> exists k :: 0 <= k < |ms| && ms[k].spec.availableZone !in ConfigZones(c)
    ensures r.Some? ==> forall z :: z in r.value <==> z in ConfigZones(c)
    ensures r.Some? ==> forall z :: z in r.value ==> r.value[z] == Pending(c, ms, z)
  {
    hide Count;
    var pending := ReplicasPerZone(c);
    ghost var zones := ConfigZones(c);
    ghost var places := MemberZones(ms);
    CountNothing(places);
    for k := 0 to |ms|
      invariant forall z :: z in pending <==> z in zones
      invariant forall z :: z in pending ==> pending[z] == Count(zones, z) - Count(places[..k], z)
      invariant forall j :: 0 <= j < k ==> ms[j].spec.availableZone in zones
    {
      CountNext(places, k);
      if ms[k].spec.availableZone !in pending {
        return None;
      }
      pending := pending[ms[k].spec.availableZone := pending[ms[k].spec.availableZone] - 1];
    }
    assert places[..|ms|] == places;
    r := Some(pending);
  }

  lemma CountNothing(s: seq<string>)
    ensures forall z :: Count(s[..0], z) == 0
  {
  }

  function TakenIPs(ms: seq<ServiceMember>): set<IP> { set k | 0 <= k < |ms| :: ms[k].spec.staticIP }

  /** For each of the zones: addresses that are recorded for the service, usable, and on the interfaces of the zone. */
  ghost predicate PoolsOK(ips: map<IP, ServiceStaticIP>, nets: Nets, uuid: string, taken: set<IP>,
                          pools: map<string, seq<ServiceStaticIP>>) {
    forall z :: z in pools ==> PoolOK(ips, uuid, taken, pools[z]) && PoolInZone(nets, z, pools[z])
  }

  lemma PoolsStay(ips: map<IP, ServiceStaticIP>, nets: Nets, ips': map<IP, ServiceStaticIP>, nets': Nets,
                  uuid: string, taken: set<IP>, pools: map<string, seq<ServiceStaticIP>>, zone: string, pool: seq<ServiceStaticIP>)
    requires PoolsOK(ips, nets, uuid, taken, pools) && IPsAdded(ips, ips', uuid) && NetsGrow(nets, nets')
    requires PoolOK(ips', uuid, taken, pool) && PoolInZone(nets', zone, pool)
    ensures PoolsOK(ips', nets', uuid, taken, pools[zone := pool])
  {
    hide IPsAdded, NetsGrow, PoolOK, PoolInZone;
    forall z | z in pools ensures PoolOK(ips', uuid, taken, pools[z]) && PoolInZone(nets', z, pools[z]) {
      PoolStays(ips, ips', uuid, taken, pools[z]);
      PoolStaysInZone(nets, nets', z, pools[z]);
    }
  }

  lemma NoPools(ips: map<IP, ServiceStaticIP>, nets: Nets, uuid: string, taken: set<IP>)
    ensures PoolsOK(ips, nets, uuid, taken, map[])
  {
  }

  lemma ListedTaken(ips: map<IP, ServiceStaticIP>, ms: seq<ServiceMember>)
    requires forall k :: 0 <= k < |ms| ==> ms[k].spec.staticIP in ips
    ensures forall ip :: ip in TakenIPs(ms) ==> ip in ips
  {
  }

  /** No address is in the pools of two zones. */
  lemma ZonesDiffer(ips: map<IP, ServiceStaticIP>, nets: Nets, uuid: string, taken: set<IP>,
                    pools: map<string, seq<ServiceStaticIP>>, y: string, z: string, ip: IP)
    requires NetsOK(nets) && PoolsOK(ips, nets, uuid, taken, pools)
    requires y in pools && z in pools && InPool(pools[y], ip) && InPool(pools[z], ip)
    ensures y == z
  {
    hide PoolOK, OnZone, Apart;
    var j :| 0 <= j < |pools[y]| && pools[y][j].staticIP == ip;
    var k :| 0 <= k < |pools[z]| && pools[z][k].staticIP == ip;
    assert OnZone(nets, y, pools[y][j].staticIP) && OnZone(nets, z, pools[z][k].staticIP);
  }

  /** The zones are known, and each has an address there for the taking for every replica without a member. */
  ghost predicate EnoughThere(ips: map<IP, ServiceStaticIP>, nets: Nets, subnets: set<string>, uuid: string, c: seq<ReplicaConfig>,
                              ms: seq<ServiceMember>) {
    && (forall k :: 0 <= k < |ms| ==> ms[k].spec.availableZone in ConfigZones(c))
    && forall z :: z in ConfigZones(c) ==>
         z in nets && z in subnets && !TooFew(ips, uuid, TakenIPs(ms), nets[z], Pending(c, ms, z))
  }

  lemma SameZones(a: Nets, b: Nets)
    requires NetsGrow(a, b)
    ensures a.Keys == b.Keys
  {
  }

  /**
   For every zone of the replicas at least as many addresses as the zone has replicas without a member;
   they are recorded for the service, no listed member has them, and no two are equal.
   */
  method CreateStaticIPs(db: DB, server: Server, uuid: string, c: seq<ReplicaConfig>, ms: seq<ServiceMember>)
    returns (r: Option<map<string, seq<ServiceStaticIP>>>)
    requires db.Valid() && server.Valid() && WellKeyed(db.ipMap)
    requires forall k :: 0 <= k < |ms| ==> ms[k].spec.staticIP in db.ipMap
    requires forall z :: z in server.nets ==> server.nets[z] != []
    modifies db, server
    ensures db.Valid() && db.Contents() == old(db.Contents()).(ips := db.ipMap)
    ensures server.Valid() && NetsGrow(old(server.nets), server.nets)
    ensures IPsAdded(old(db.ipMap), db.ipMap, uuid) && WellKeyed(db.ipMap)
    ensures r.Some? ==> forall z :: z in r.value <==> z in ConfigZones(c)
    ensures r.Some? ==> forall z :: z in r.value ==> |r.value[z]| >= Pending(c, ms, z)
    ensures r.Some? ==> PoolsOK(db.ipMap, server.nets, uuid, TakenIPs(ms), r.value)
    ensures PrimariesApart(old(server.nets)) ==> PrimariesApart(server.nets)
    ensures db.reliable && server.reliable && EnoughThere(old(db.ipMap), old(server.nets), server.subnets.Keys, uuid, c, ms) ==> r.Some?
  {
    hide OnlyZone, TooFew;
    hide PoolOK, PoolInZone, IPsAdded, NetsOK, NetsGrow, WellKeyed, Pending, PrimariesApart, InTurn, NewOnes, Adoptable, PoolsOK, TakenIPs;
    NoPools(db.ipMap, server.nets, uuid, TakenIPs(ms));
    ListedTaken(db.ipMap, ms);
    ghost var nets0, ips0 := server.nets, db.ipMap;
    NetsStay(nets0);
    IPsSame(ips0, uuid);
    var pending := PendingReplicas(c, ms);
    if pending.None? {
      return None;
    }
    var taken := TakenIPs(ms);
    var todo := pending.value.Keys;
    var pools: map<string, seq<ServiceStaticIP>> := map[];
    while todo != {}
      invariant todo <= pending.value.Keys && pools.Keys == pending.value.Keys - todo
      invariant db.Valid() && db.Contents() == old(db.Contents()).(ips := db.ipMap)
      invariant server.Valid() && NetsGrow(nets0, server.nets)
      invariant IPsAdded(ips0, db.ipMap, uuid) && WellKeyed(db.ipMap)
      invariant forall z :: z in pools ==> |pools[z]| >= pending.value[z]
      invariant PoolsOK(db.ipMap, server.nets, uuid, taken, pools) && (PrimariesApart(nets0) ==> PrimariesApart(server.nets))
      invariant nets0.Keys == server.nets.Keys && forall z, ip :: z in todo ==> (OnZone(nets0, z, ip) <==> OnZone(server.nets, z, ip))
      decreases todo
    {
      var zone :| zone in todo;
      ghost var nets1, ips1 := server.nets, db.ipMap;
      TakenStay(taken, ips0, ips1, uuid);
      InterfacesStay(nets0, nets1);
      var pool, _, _ := CreateStaticIPsForZone(db, server, uuid, taken, pending.value[zone], zone);
      NetsGrowTwice(nets0, nets1, server.nets);
      AddedTwice(ips0, ips1, db.ipMap, uuid);
      if pool.None? {
        ghost var known := zone in nets1 && zone in server.subnets;
        if db.reliable && server.reliable && known {
          AdoptableStays(ips0, ips1, uuid, taken, nets0, nets1, zone, pending.value[zone]);
        }
        return None;
      }
      OthersJoined(nets0, nets1, server.nets, zone, todo);
      SameZones(nets0, server.nets);
      PoolsStay(ips1, nets1, db.ipMap, server.nets, uuid, taken, pools, zone, pool.value);
      pools := pools[zone := pool.value];
      todo := todo - {zone};
    }
    r := Some(pools);
  }

  lemma InterfacesStay(nets: Nets, nets': Nets)
    requires NetsGrow(nets, nets') && forall z :: z in nets ==> nets[z] != []
    ensures forall z :: z in nets' ==> nets'[z] != []
  {
    hide OnZone;
  }
}
