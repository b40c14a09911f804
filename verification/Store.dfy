/**
 The database of the control plane (pkg/db/memdb.go): six tables changed by create-if-absent, guarded
 update and delete. Updates of a service attr are guarded as in
 pkg/db/awsdynamodb/dynamodb_serviceattr.go. Any operation may fail with an internal error, before or,
 when `lossy`, after its effect: a request that gets one stops. A `reliable` store has no such failures.
 Keys are pairs; there is one cluster.
 */
module Store {
  import opened Text
  import opened NextIP
  import opened Records
  import Devices

  type Key = (string, string)

  datatype Tables = Tables(
    devices: map<string, string>,
    services: map<string, string>,
    attrs: map<string, ServiceAttr>,
    members: map<Key, ServiceMember>,
    configs: map<Key, ConfigFile>,
    ips: map<IP, ServiceStaticIP>)

  datatype Fault = NoFault | FailBefore | FailAfter

  /** A write that is refused, or succeeds, or fails without or (when lossy) with its effect. */
  ghost predicate Write<T>(lossy: bool, before: T, written: T, refused: Option<DBError>, after: T, err: Option<DBError>) {
    if refused.Some? then after == before && (err == refused || err == Some(Internal))
    else
      || (err.None? && after == written)
      || (err == Some(Internal) && (after == before || (lossy && after == written)))
  }

  ghost predicate Create<K, V>(lossy: bool, before: map<K, V>, k: K, v: V, after: map<K, V>, err: Option<DBError>) {
    Write(lossy, before, before[k := v], if k in before then Some(ConditionalCheckFailed) else None, after, err)
  }

  ghost predicate Delete<K, V>(lossy: bool, before: map<K, V>, k: K, after: map<K, V>, err: Option<DBError>) {
    Write(lossy, before, before - {k}, if k in before then None else Some(RecordNotFound), after, err)
  }

  datatype Got<T> = Got(value: T) | Error(error: DBError)

  ghost predicate Get<K, V>(m: map<K, V>, k: K, r: Got<V>) {
    match r
    case Got(v) => k in m && v == m[k]
    case Error(e) => e == Internal || (e == RecordNotFound && k !in m)
  }

  /** Both tables have the same under the key, or both have nothing. */
  ghost predicate SameAt<K, V>(a: map<K, V>, b: map<K, V>, k: K) {
    (k in a <==> k in b) && (k in a && k in b ==> a[k] == b[k])
  }

  /** Every member of the service once, in any order. */
  ghost predicate ListsMembers(members: map<Key, ServiceMember>, uuid: string, r: seq<ServiceMember>) {
    && (forall i :: 0 <= i < |r| ==> (uuid, r[i].memberName) in members && members[(uuid, r[i].memberName)] == r[i])
    && (forall i, j :: 0 <= i < j < |r| ==> r[i].memberName != r[j].memberName)
    && (forall n :: (uuid, n) in members ==> Listed(r, n))
  }

  ghost predicate NoMembers(uuid: string, ms: map<Key, ServiceMember>) { forall n :: (uuid, n) !in ms }

  ghost predicate Listed(r: seq<ServiceMember>, name: string) {
    exists i :: 0 <= i < |r| && r[i].memberName == name
  }

  lemma ListedGrows(r: seq<ServiceMember>, m: ServiceMember)
    ensures forall n :: Listed(r, n) || n == m.memberName ==> Listed(r + [m], n)
  {
    forall n | Listed(r, n) || n == m.memberName ensures Listed(r + [m], n) {
      if n == m.memberName {
        assert (r + [m])[|r|].memberName == n;
      } else {
        var i :| 0 <= i < |r| && r[i].memberName == n;
        assert (r + [m])[i].memberName == n;
      }
    }
  }

  /** A listing and the member that has been added since. */
  lemma ListsNext(ms: map<Key, ServiceMember>, uuid: string, r: seq<ServiceMember>, m: ServiceMember)
    requires ListsMembers(ms, uuid, r) && (uuid, m.memberName) !in ms
    ensures ListsMembers(ms[(uuid, m.memberName) := m], uuid, r + [m])
  {
    ListedGrows(r, m);
  }

  class DB {
    const lossy: bool
    const reliable: bool
    var devMap: map<string, string>
    var svcMap: map<string, string>
    var svcAttrMap: map<string, ServiceAttr>
    var memberMap: map<Key, ServiceMember>
    var cfgMap: map<Key, ConfigFile>
    var ipMap: map<IP, ServiceStaticIP>

    ghost function Contents(): Tables
      reads this
    {
      Tables(devMap, svcMap, svcAttrMap, memberMap, cfgMap, ipMap)
    }

    /** Members are kept under their own names. */
    ghost predicate Valid()
      reads this
    {
      forall k :: k in memberMap ==> k == (memberMap[k].serviceUUID, memberMap[k].memberName)
    }

    constructor (lossy: bool, reliable: bool)
      ensures this.lossy == lossy && this.reliable == reliable && Valid()
      ensures Contents() == Tables(map[], map[], map[], map[], map[], map[])
    {
      this.lossy, this.reliable := lossy, reliable;
      devMap, svcMap, svcAttrMap, memberMap, cfgMap, ipMap := map[], map[], map[], map[], map[], map[];
    }

    method PickFault() returns (f: Fault)
      ensures f.FailAfter? ==> lossy
      ensures reliable ==> f.NoFault?
    {
      f := *;
      if reliable {
        f := NoFault;
      } else if f.FailAfter? && !lossy {
        f := FailBefore;
      }
    }

    // ---------------------------------------------------------------- devices

    method CreateDevice(name: string, service: string) returns (err: Option<DBError>)
      requires Valid()
      modifies this
      ensures Valid() && Contents() == old(Contents()).(devices := devMap)
      ensures Create(lossy, old(devMap), name, service, devMap, err)
      ensures reliable ==> err != Some(Internal)
    {
      if name in devMap {
        return Some(ConditionalCheckFailed);
      }
      var f := PickFault();
      if !f.FailBefore? {
        devMap := devMap[name := service];
      }
      err := if f.NoFault? then None else Some(Internal);
    }

    method DeleteDevice(name: string) returns (err: Option<DBError>)
      requires Valid()
      modifies this
      ensures Valid() && Contents() == old(Contents()).(devices := devMap)
      ensures Delete(lossy, old(devMap), name, devMap, err)
      ensures reliable ==> err != Some(Internal)
    {
      if name !in devMap {
        return Some(RecordNotFound);
      }
      var f := PickFault();
      if !f.FailBefore? {
        devMap := devMap - {name};
      }
      err := if f.NoFault? then None else Some(Internal);
    }

    method ListDevices() returns (r: Option<seq<Devices.Device>>)
      ensures r.Some? ==> Devices.ListsDevices(devMap, r.value)
      ensures reliable ==> r.Some?
    {
      var f := PickFault();
      if !f.NoFault? {
        return None;
      }
      var names := devMap.Keys;
      var devs: seq<Devices.Device> := [];
      while names != {}
        invariant names <= devMap.Keys && |devs| + |names| == |devMap|
        invariant forall k :: 0 <= k < |devs| ==> devs[k].name in devMap && devMap[devs[k].name] == devs[k].service
        invariant forall k :: 0 <= k < |devs| ==> devs[k].name !in names
        invariant forall j, k :: 0 <= j < k < |devs| ==> devs[j].name != devs[k].name
        decreases names
      {
        var name :| name in names;
        devs := devs + [Devices.Device(name, devMap[name])];
        names := names - {name};
      }
      r := Some(devs);
    }

    // ---------------------------------------------------------------- services

    method CreateService(name: string, uuid: string) returns (err: Option<DBError>)
      requires Valid()
      modifies this
      ensures Valid() && Contents() == old(Contents()).(services := svcMap)
      ensures Create(lossy, old(svcMap), name, uuid, svcMap, err)
      ensures reliable ==> err != Some(Internal)
    {
      if name in svcMap {
        return Some(ConditionalCheckFailed);
      }
      var f := PickFault();
      if !f.FailBefore? {
        svcMap := svcMap[name := uuid];
      }
      err := if f.NoFault? then None else Some(Internal);
    }

    method GetService(name: string) returns (r: Got<string>)
      ensures Get(svcMap, name, r)
      ensures reliable ==> r != Error(Internal)
    {
      var f := PickFault();
      if !f.NoFault? {
        return Error(Internal);
      }
      r := if name in svcMap then Got(svcMap[name]) else Error(RecordNotFound);
    }

    method DeleteService(name: string) returns (err: Option<DBError>)
      requires Valid()
      modifies this
      ensures Valid() && Contents() == old(Contents()).(services := svcMap)
      ensures Delete(lossy, old(svcMap), name, svcMap, err)
      ensures reliable ==> err != Some(Internal)
    {
      if name !in svcMap {
        return Some(RecordNotFound);
      }
      var f := PickFault();
      if !f.FailBefore? {
        svcMap := svcMap - {name};
      }
      err := if f.NoFault? then None else Some(Internal);
    }

    // ---------------------------------------------------------------- service attrs

    method CreateServiceAttr(attr: ServiceAttr) returns (err: Option<DBError>)
      requires Valid()
      modifies this
      ensures Valid() && Contents() == old(Contents()).(attrs := svcAttrMap)
      ensures Create(lossy, old(svcAttrMap), attr.serviceUUID, attr, svcAttrMap, err)
      ensures reliable ==> err != Some(Internal)
    {
      if attr.serviceUUID in svcAttrMap {
        return Some(ConditionalCheckFailed);
      }
      var f := PickFault();
      if !f.FailBefore? {
        svcAttrMap := svcAttrMap[attr.serviceUUID := attr];
      }
      err := if f.NoFault? then None else Some(Internal);
    }

    method UpdateServiceAttr(oldAttr: ServiceAttr, newAttr: ServiceAttr) returns (err: Option<DBError>)
      requires Valid()
      modifies this
      ensures Valid() && Contents() == old(Contents()).(attrs := svcAttrMap)
      ensures var stored := if oldAttr.serviceUUID in old(svcAttrMap) then Some(old(svcAttrMap)[oldAttr.serviceUUID]) else None;
              Write(lossy, old(svcAttrMap), old(svcAttrMap)[oldAttr.serviceUUID := newAttr],
                    Records.UpdateServiceAttr(stored, oldAttr, newAttr).error, svcAttrMap, err)
      ensures svcAttrMap != old(svcAttrMap) || err.None? ==>
                && newAttr.revision == oldAttr.revision + 1 && EqualImmutableFields(oldAttr, newAttr)
                && oldAttr.serviceUUID in old(svcAttrMap) && old(svcAttrMap)[oldAttr.serviceUUID].revision == oldAttr.revision
      ensures reliable ==> err != Some(Internal)
    {
      var stored := if oldAttr.serviceUUID in svcAttrMap then Some(svcAttrMap[oldAttr.serviceUUID]) else None;
      err := Records.UpdateServiceAttr(stored, oldAttr, newAttr).error;
      if err.Some? {
        return;
      }
      var f := PickFault();
      if !f.FailBefore? {
        svcAttrMap := svcAttrMap[oldAttr.serviceUUID := newAttr];
      }
      err := if f.NoFault? then None else Some(Internal);
    }

    method GetServiceAttr(uuid: string) returns (r: Got<ServiceAttr>)
      ensures Get(svcAttrMap, uuid, r)
      ensures reliable ==> r != Error(Internal)
    {
      var f := PickFault();
      if !f.NoFault? {
        return Error(Internal);
      }
      r := if uuid in svcAttrMap then Got(svcAttrMap[uuid]) else Error(RecordNotFound);
    }

    method DeleteServiceAttr(uuid: string) returns (err: Option<DBError>)
      requires Valid()
      modifies this
      ensures Valid() && Contents() == old(Contents()).(attrs := svcAttrMap)
      ensures Delete(lossy, old(svcAttrMap), uuid, svcAttrMap, err)
      ensures reliable ==> err != Some(Internal)
    {
      if uuid !in svcAttrMap {
        return Some(RecordNotFound);
      }
      var f := PickFault();
      if !f.FailBefore? {
        svcAttrMap := svcAttrMap - {uuid};
      }
      err := if f.NoFault? then None else Some(Internal);
    }

    // ---------------------------------------------------------------- members

    method CreateServiceMember(m: ServiceMember) returns (err: Option<DBError>)
      requires Valid()
      modifies this
      ensures Valid() && Contents() == old(Contents()).(members := memberMap)
      ensures Create(lossy, old(memberMap), (m.serviceUUID, m.memberName), m, memberMap, err)
      ensures reliable ==> err != Some(Internal)
    {
      if (m.serviceUUID, m.memberName) in memberMap {
        return Some(ConditionalCheckFailed);
      }
      var f := PickFault();
      if !f.FailBefore? {
        memberMap := memberMap[(m.serviceUUID, m.memberName) := m];
      }
      err := if f.NoFault? then None else Some(Internal);
    }

    /** Update-if-match: the stored member is the old one, but for its time. */
    method UpdateServiceMember(oldMember: ServiceMember, newMember: ServiceMember) returns (err: Option<DBError>)
      requires Valid() && newMember.serviceUUID == oldMember.serviceUUID && newMember.memberName == oldMember.memberName
      modifies this
      ensures Valid() && Contents() == old(Contents()).(members := memberMap)
      ensures var key := (oldMember.serviceUUID, oldMember.memberName);
              Write(lossy, old(memberMap), old(memberMap)[key := newMember],
                    if key !in old(memberMap) then Some(RecordNotFound)
                    else if !EqualServiceMember(oldMember, old(memberMap)[key]) then Some(ConditionalCheckFailed) else None,
                    memberMap, err)
      ensures reliable ==> err != Some(Internal)
    {
      var key := (oldMember.serviceUUID, oldMember.memberName);
      if key !in memberMap {
        return Some(RecordNotFound);
      }
      if !EqualServiceMember(oldMember, memberMap[key]) {
        return Some(ConditionalCheckFailed);
      }
      var f := PickFault();
      if !f.FailBefore? {
        memberMap := memberMap[key := newMember];
      }
      err := if f.NoFault? then None else Some(Internal);
    }

    method ListServiceMembers(uuid: string) returns (r: Option<seq<ServiceMember>>)
      requires Valid()
      ensures r.Some? ==> ListsMembers(memberMap, uuid, r.value)
      ensures reliable ==> r.Some?
    {
      var f := PickFault();
      if !f.NoFault? {
        return None;
      }
      var keys := set k | k in memberMap && k.0 == uuid;
      var ms: seq<ServiceMember> := [];
      while keys != {}
        invariant forall k :: k in keys ==> k in memberMap && k.0 == uuid
        invariant forall i :: 0 <= i < |ms| ==> (uuid, ms[i].memberName) in memberMap && memberMap[(uuid, ms[i].memberName)] == ms[i]
        invariant forall i :: 0 <= i < |ms| ==> (uuid, ms[i].memberName) !in keys
        invariant forall i, j :: 0 <= i < j < |ms| ==> ms[i].memberName != ms[j].memberName
        invariant forall n :: (uuid, n) in memberMap && (uuid, n) !in keys ==> Listed(ms, n)
        decreases keys
      {
        var k :| k in keys;
        ListedGrows(ms, memberMap[k]);
        ms := ms + [memberMap[k]];
        keys := keys - {k};
      }
      r := Some(ms);
    }

    /** It names the fault, for what is said about whole deletions. */
    method DeleteServiceMember(uuid: string, name: string) returns (err: Option<DBError>, ghost f: Fault)
      requires Valid()
      modifies this
      ensures Valid() && Contents() == old(Contents()).(members := memberMap)
      ensures Delete(lossy, old(memberMap), (uuid, name), memberMap, err)
      ensures f.FailAfter? ==> lossy
      ensures (uuid, name) in old(memberMap) ==> err == if f.NoFault? then None else Some(Internal)
      ensures (uuid, name) in old(memberMap) ==> memberMap == if f.FailBefore? then old(memberMap) else old(memberMap) - {(uuid, name)}
      ensures reliable ==> err != Some(Internal)
    {
      if (uuid, name) !in memberMap {
        return Some(RecordNotFound), NoFault;
      }
      var fault := PickFault();
      f := fault;
      if !fault.FailBefore? {
        memberMap := memberMap - {(uuid, name)};
      }
      err := if fault.NoFault? then None else Some(Internal);
    }

    // ---------------------------------------------------------------- config files

    method CreateConfigFile(c: ConfigFile) returns (err: Option<DBError>)
      requires Valid()
      modifies this
      ensures Valid() && Contents() == old(Contents()).(configs := cfgMap)
      ensures Create(lossy, old(cfgMap), (c.serviceUUID, c.fileID), c, cfgMap, err)
      ensures reliable ==> err != Some(Internal)
    {
      if (c.serviceUUID, c.fileID) in cfgMap {
        return Some(ConditionalCheckFailed);
      }
      var f := PickFault();
      if !f.FailBefore? {
        cfgMap := cfgMap[(c.serviceUUID, c.fileID) := c];
      }
      err := if f.NoFault? then None else Some(Internal);
    }

    method GetConfigFile(uuid: string, fileID: string) returns (r: Got<ConfigFile>)
      ensures Get(cfgMap, (uuid, fileID), r)
      ensures reliable ==> r != Error(Internal)
    {
      var f := PickFault();
      if !f.NoFault? {
        return Error(Internal);
      }
      r := if (uuid, fileID) in cfgMap then Got(cfgMap[(uuid, fileID)]) else Error(RecordNotFound);
    }

    method DeleteConfigFile(uuid: string, fileID: string) returns (err: Option<DBError>)
      requires Valid()
      modifies this
      ensures Valid() && Contents() == old(Contents()).(configs := cfgMap)
      ensures Delete(lossy, old(cfgMap), (uuid, fileID), cfgMap, err)
      ensures reliable ==> err != Some(Internal)
    {
      if (uuid, fileID) !in cfgMap {
        return Some(RecordNotFound);
      }
      var f := PickFault();
      if !f.FailBefore? {
        cfgMap := cfgMap - {(uuid, fileID)};
      }
      err := if f.NoFault? then None else Some(Internal);
    }

    // ---------------------------------------------------------------- static ips

    method CreateServiceStaticIP(ip: ServiceStaticIP) returns (err: Option<DBError>)
      requires Valid()
      modifies this
      ensures Valid() && Contents() == old(Contents()).(ips := ipMap)
      ensures Create(lossy, old(ipMap), ip.staticIP, ip, ipMap, err)
      ensures reliable ==> err != Some(Internal)
    {
      if ip.staticIP in ipMap {
        return Some(ConditionalCheckFailed);
      }
      var f := PickFault();
      if !f.FailBefore? {
        ipMap := ipMap[ip.staticIP := ip];
      }
      err := if f.NoFault? then None else Some(Internal);
    }

    method GetServiceStaticIP(ip: IP) returns (r: Got<ServiceStaticIP>)
      ensures Get(ipMap, ip, r)
      ensures reliable ==> r != Error(Internal)
    {
      var f := PickFault();
      if !f.NoFault? {
        return Error(Internal);
      }
      r := if ip in ipMap then Got(ipMap[ip]) else Error(RecordNotFound);
    }

    method DeleteServiceStaticIP(ip: IP) returns (err: Option<DBError>)
      requires Valid()
      modifies this
      ensures Valid() && Contents() == old(Contents()).(ips := ipMap)
      ensures Delete(lossy, old(ipMap), ip, ipMap, err)
      ensures reliable ==> err != Some(Internal)
    {
      if ip !in ipMap {
        return Some(RecordNotFound);
      }
      var f := PickFault();
      if !f.FailBefore? {
        ipMap := ipMap - {ip};
      }
      err := if f.NoFault? then None else Some(Internal);
    }
  }
}
