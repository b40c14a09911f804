/**
 Deletion of a service in any number of attempts (DeleteService and deleteDevices,
 pkg/managesvc/service.go). Nobody else changes the database meanwhile: what an attempt does when others
 have changed it since the last one is in Interference. The DNS records, whose errors are ignored, are
 left out.
 */
module Deletion {
  import opened Text
  import opened NextIP
  import opened Records
  import opened Store
  import opened StaticIPs
  import opened Cloud
  import Vol = Volumes

  // ---------------------------------------------------------------- what is the service's

  ghost predicate Refers(configs: seq<ConfigID>, fileID: string) { exists i :: 0 <= i < |configs| && configs[i].fileID == fileID }

  /** Referred to by the attr or by a member. */
  ghost predicate OwnConfig(t: Tables, uuid: string, key: Key) {
    && key.0 == uuid
    && ((uuid in t.attrs && Refers(t.attrs[uuid].spec.serviceConfigs, key.1))
        || exists n :: (uuid, n) in t.members && Refers(t.members[(uuid, n)].spec.configs, key.1))
  }

  /** Held by a member of a service with static IPs. */
  ghost predicate OwnIP(t: Tables, uuid: string, ip: IP) {
    && uuid in t.attrs && t.attrs[uuid].spec.requireStaticIP
    && exists n :: (uuid, n) in t.members && t.members[(uuid, n)].spec.staticIP == ip
  }

  predicate OwnDevice(t: Tables, uuid: string, dev: string) {
    && uuid in t.attrs && dev != ""
    && dev in {t.attrs[uuid].spec.volumes.primaryDeviceName, t.attrs[uuid].spec.volumes.journalDeviceName}
  }

  // ---------------------------------------------------------------- the progress of a deletion

  ghost predicate Sub<K, V>(a: map<K, V>, b: map<K, V>) { forall k :: k in a ==> k in b && a[k] == b[k] }

  /** The config files and the address of a member are gone. */
  ghost predicate MemberGone(requireStaticIP: bool, m: ServiceMember, uuid: string,
                             files: map<Key, ConfigFile>, ips: map<IP, ServiceStaticIP>) {
    ConfigsGone(m.spec.configs, uuid, files) && (requireStaticIP ==> m.spec.staticIP !in ips)
  }

  ghost predicate ConfigsGone(configs: seq<ConfigID>, uuid: string, files: map<Key, ConfigFile>) {
    forall i :: 0 <= i < |configs| ==> (uuid, configs[i].fileID) !in files
  }

  ghost predicate DevicesGone(sv: ServiceVolumes, devices: map<string, string>) {
    && (sv.primaryDeviceName != "" ==> sv.primaryDeviceName !in devices)
    && (sv.journalDeviceName != "" ==> sv.journalDeviceName !in devices)
  }

  /** The attr is as it was, or at DELETING. */
  predicate SameOrDeleting(a: ServiceAttr, b: ServiceAttr) {
    b == a || StatusChanged(a, b, Deleting)
  }

  /** Only the service's own records are gone since t0, in the order of the deletion. */
  ghost predicate Progress(t0: Tables, service: string, uuid: string, t: Tables) {
    && service in t0.services && t0.services[service] == uuid && uuid in t0.attrs
    && var a := t0.attrs[uuid];
       && (t.services == t0.services || t.services == t0.services - {service})
       && (t.attrs == t0.attrs - {uuid} ||
           (uuid in t.attrs && t.attrs == t0.attrs[uuid := t.attrs[uuid]] && SameOrDeleting(a, t.attrs[uuid])))
       && Sub(t.members, t0.members) && (forall k: Key :: k in t0.members && k !in t.members ==> k.0 == uuid)
       && Sub(t.configs, t0.configs) && (forall k :: k in t0.configs && k !in t.configs ==> OwnConfig(t0, uuid, k))
       && Sub(t.ips, t0.ips) && (forall ip :: ip in t0.ips && ip !in t.ips ==> OwnIP(t0, uuid, ip))
       && Sub(t.devices, t0.devices) && (forall d :: d in t0.devices && d !in t.devices ==> OwnDevice(t0, uuid, d))
       && (forall n :: (uuid, n) in t0.members && (uuid, n) !in t.members ==>
             MemberGone(a.spec.requireStaticIP, t0.members[(uuid, n)], uuid, t.configs, t.ips))
       && (uuid !in t.attrs ==>
             NoMembers(uuid, t.members) && ConfigsGone(a.spec.serviceConfigs, uuid, t.configs) && DevicesGone(a.spec.volumes, t.devices))
       && (service !in t.services ==> uuid !in t.attrs)
  }

  /** The same, also for a service whose creation stopped before its attr: then only the service item goes. */
  ghost predicate Underway(t0: Tables, service: string, uuid: string, t: Tables) {
    if uuid in t0.attrs then Progress(t0, service, uuid, t)
    else service in t0.services && t0.services[service] == uuid && (t == t0 || t == t0.(services := t0.services - {service}))
  }

  lemma NothingDeleted(t0: Tables, service: string)
    requires service in t0.services
    ensures Underway(t0, service, t0.services[service], t0)
  {
  }

  // ---------------------------------------------------------------- volumes

  function TimesHeld(m: ServiceMember, id: string): nat {
    (if m.spec.volumes.primaryVolumeID == id then 1 else 0) + (if m.spec.volumes.journalVolumeID == id then 1 else 0)
  }

  ghost function Primaries(ms: map<Key, ServiceMember>, uuid: string, id: string): set<Key> {
    set k | k in ms && k.0 == uuid && ms[k].spec.volumes.primaryVolumeID == id
  }

  ghost function Journals(ms: map<Key, ServiceMember>, uuid: string, id: string): set<Key> {
    set k | k in ms && k.0 == uuid && ms[k].spec.volumes.journalVolumeID == id
  }

  /** How often the members of the service have the volume. */
  ghost function Volumes(ms: map<Key, ServiceMember>, uuid: string, id: string): nat {
    |Primaries(ms, uuid, id)| + |Journals(ms, uuid, id)|
  }

  lemma VolumesDelete(ms: map<Key, ServiceMember>, uuid: string, name: string, id: string)
    requires (uuid, name) in ms
    ensures Volumes(ms, uuid, id) == Volumes(ms - {(uuid, name)}, uuid, id) + TimesHeld(ms[(uuid, name)], id)
  {
    var k := (uuid, name);
    var ms' := ms - {k};
    assert Primaries(ms', uuid, id) == Primaries(ms, uuid, id) - {k};
    assert Journals(ms', uuid, id) == Journals(ms, uuid, id) - {k};
  }

  lemma NoVolumes(ms: map<Key, ServiceMember>, uuid: string, id: string)
    requires NoMembers(uuid, ms)
    ensures Volumes(ms, uuid, id) == 0
  {
    assert Primaries(ms, uuid, id) == {};
    assert Journals(ms, uuid, id) == {};
  }

  lemma CountSnoc(s: seq<string>, x: string, id: string)
    ensures Count(s + [x], id) == Count(s, id) + if x == id then 1 else 0
  {
    assert (s + [x])[..|s|] == s;
  }

  lemma {:induction false} CountConcat(a: seq<string>, b: seq<string>, id: string)
    ensures Count(a + b, id) == Count(a, id) + Count(b, id)
  {
    if b == [] {
      assert a + b == a;
    } else {
      var n := |b| - 1;
      assert (a + b)[..|a| + n] == a + b[..n];
      CountConcat(a, b[..n], id);
    }
  }

  /** The volumes of a member, as they are returned. */
  function OwnVolumes(m: ServiceMember): seq<string> {
    var v := m.spec.volumes;
    (if |v.primaryVolumeID| != 0 then [v.primaryVolumeID] else [])
    + (if |v.journalVolumeID| != 0 then [v.journalVolumeID] else [])
  }

  function VolumeIDs(members: seq<ServiceMember>): seq<string> {
    if members == [] then [] else VolumeIDs(members[..|members| - 1]) + OwnVolumes(members[|members| - 1])
  }

  lemma CountVolumesOf(m: ServiceMember, id: string)
    requires id != ""
    ensures Count(OwnVolumes(m), id) == TimesHeld(m, id)
  {
    hide Count;
    var v := m.spec.volumes;
    var first := if |v.primaryVolumeID| != 0 then [v.primaryVolumeID] else [];
    CountOfNothing(id);
    CountSnoc([], v.primaryVolumeID, id);
    CountSnoc(first, v.journalVolumeID, id);
    assert OwnVolumes(m) == if |v.journalVolumeID| != 0 then first + [v.journalVolumeID] else first;
    assert [] + [v.primaryVolumeID] == [v.primaryVolumeID];
  }

  lemma CountOfNothing(id: string)
    ensures Count([], id) == 0
  {
  }

  /**
   How far an attempt gets with the member records: those of the first `deleted` listed members go, with
   a reply each; then it stops at a fault, or all are gone. An attempt that stops earlier has listed none.
   */
  datatype Attempt = Attempt(todo: seq<ServiceMember>, deleted: nat, fault: Fault)

  const NO_ATTEMPT := Attempt([], 0, NoFault)

  ghost predicate IsAttempt(lossy: bool, uuid: string, ms: map<Key, ServiceMember>, a: Attempt) {
    && (a.todo == [] || ListsMembers(ms, uuid, a.todo))
    && (if a.fault.NoFault? then a.deleted == |a.todo| else a.deleted < |a.todo|)
    && (a.fault.FailAfter? ==> lossy)
  }

  /** The members whose records go with a reply: their volumes are returned. */
  function Returned(a: Attempt): seq<ServiceMember> { if a.deleted <= |a.todo| then a.todo[..a.deleted] else a.todo }

  /** The member whose record goes with a reply that is lost. */
  function Lost(a: Attempt): seq<ServiceMember> {
    if a.fault.FailAfter? && a.deleted < |a.todo| then [a.todo[a.deleted]] else []
  }

  function Without(ms: map<Key, ServiceMember>, uuid: string, gone: seq<ServiceMember>): map<Key, ServiceMember> {
    if gone == [] then ms else Without(ms, uuid, gone[..|gone| - 1]) - {(uuid, gone[|gone| - 1].memberName)}
  }

  /** The member records after the attempt. */
  function After(ms: map<Key, ServiceMember>, uuid: string, a: Attempt): map<Key, ServiceMember> {
    Without(ms, uuid, Returned(a) + Lost(a))
  }

  // ---------------------------------------------------------------- what each deletion keeps

  lemma AfterIP(t0: Tables, service: string, uuid: string, t: Tables, t': Tables, m: ServiceMember)
    requires Progress(t0, service, uuid, t) && (uuid, m.memberName) in t.members && t.members[(uuid, m.memberName)] == m
    requires t0.attrs[uuid].spec.requireStaticIP
    requires t' == t || t' == t.(ips := t.ips - {m.spec.staticIP})
    ensures Progress(t0, service, uuid, t')
  {
    hide SameOrDeleting, OwnConfig, OwnDevice, DevicesGone, UpdateServiceStatus;
    assert OwnIP(t0, uuid, m.spec.staticIP);
  }

  lemma AfterConfig(t0: Tables, service: string, uuid: string, t: Tables, t': Tables, fileID: string)
    requires Progress(t0, service, uuid, t) && OwnConfig(t0, uuid, (uuid, fileID))
    requires t' == t || t' == t.(configs := t.configs - {(uuid, fileID)})
    ensures Progress(t0, service, uuid, t')
  {
    hide SameOrDeleting, OwnConfig, OwnIP, OwnDevice, DevicesGone;
  }

  lemma AfterMember(t0: Tables, service: string, uuid: string, t: Tables, t': Tables, name: string)
    requires Progress(t0, service, uuid, t) && (uuid, name) in t.members
    requires MemberGone(t0.attrs[uuid].spec.requireStaticIP, t.members[(uuid, name)], uuid, t.configs, t.ips)
    requires t' == t || t' == t.(members := t.members - {(uuid, name)})
    ensures Progress(t0, service, uuid, t')
  {
    hide SameOrDeleting, OwnConfig, OwnIP, OwnDevice, DevicesGone;
  }

  lemma AfterDevice(t0: Tables, service: string, uuid: string, t: Tables, t': Tables, dev: string)
    requires Progress(t0, service, uuid, t) && OwnDevice(t0, uuid, dev)
    requires t' == t || t' == t.(devices := t.devices - {dev})
    ensures Progress(t0, service, uuid, t')
  {
    hide SameOrDeleting, OwnConfig, OwnIP, OwnDevice, MemberGone;
  }

  lemma AfterAttr(t0: Tables, service: string, uuid: string, t: Tables, t': Tables)
    requires Progress(t0, service, uuid, t) && NoMembers(uuid, t.members)
    requires ConfigsGone(t0.attrs[uuid].spec.serviceConfigs, uuid, t.configs) && DevicesGone(t0.attrs[uuid].spec.volumes, t.devices)
    requires t' == t || t' == t.(attrs := t.attrs - {uuid})
    ensures Progress(t0, service, uuid, t')
  {
    hide OwnConfig, OwnIP, OwnDevice, MemberGone, DevicesGone, ConfigsGone;
    assert t.attrs - {uuid} == t0.attrs - {uuid};
  }

  lemma AfterService(t0: Tables, service: string, uuid: string, t: Tables, t': Tables)
    requires Progress(t0, service, uuid, t) && uuid !in t.attrs
    requires t' == t || t' == t.(services := t.services - {service})
    ensures Progress(t0, service, uuid, t')
  {
    hide OwnConfig, OwnIP, OwnDevice, MemberGone, DevicesGone, ConfigsGone, SameOrDeleting;
    assert t.services - {service} == t0.services - {service};
  }

  lemma AfterStatus(t0: Tables, service: string, uuid: string, t: Tables, t': Tables, now: int)
    requires Progress(t0, service, uuid, t) && uuid in t.attrs && t.attrs[uuid].meta.serviceStatus != Deleting
    requires t' == t || t' == t.(attrs := t.attrs[uuid := UpdateServiceStatus(t.attrs[uuid], Deleting, now)])
    ensures Progress(t0, service, uuid, t')
  {
    hide OwnConfig, OwnIP, OwnDevice, MemberGone, DevicesGone, ConfigsGone;
  }

  // ---------------------------------------------------------------- the methods

  lemma GoneStays(requireStaticIP: bool, m: ServiceMember, uuid: string, files: map<Key, ConfigFile>, ips: map<IP, ServiceStaticIP>,
                  files': map<Key, ConfigFile>, ips': map<IP, ServiceStaticIP>)
    requires MemberGone(requireStaticIP, m, uuid, files, ips) && Sub(files', files) && Sub(ips', ips)
    ensures MemberGone(requireStaticIP, m, uuid, files', ips')
  {
  }

  lemma DeletedOne<K, V>(lossy: bool, before: map<K, V>, k: K, after: map<K, V>, err: Option<DBError>)
    requires Delete(lossy, before, k, after, err)
    ensures Sub(after, before) && (after == before || after == before - {k})
    ensures err.None? || err == Some(RecordNotFound) ==> k !in after && after == before - {k}
    ensures err.None? ==> k in before
  {
    if err == Some(RecordNotFound) { assert before - {k} == before; }
  }

  /** The config files of the attr or of a member. */
  method DeleteConfigFiles(db: DB, uuid: string, configs: seq<ConfigID>, ghost t0: Tables, ghost service: string) returns (ok: bool)
    requires db.Valid() && Progress(t0, service, uuid, db.Contents())
    requires forall i :: 0 <= i < |configs| ==> OwnConfig(t0, uuid, (uuid, configs[i].fileID))
    modifies db
    ensures db.Valid() && db.Contents() == old(db.Contents()).(configs := db.cfgMap)
    ensures Progress(t0, service, uuid, db.Contents()) && Sub(db.cfgMap, old(db.cfgMap))
    ensures ok ==> ConfigsGone(configs, uuid, db.cfgMap)
    ensures db.reliable ==> ok
  {
    hide Progress, OwnConfig;
    for i := 0 to |configs|
      invariant db.Valid() && db.Contents() == old(db.Contents()).(configs := db.cfgMap)
      invariant Progress(t0, service, uuid, db.Contents()) && Sub(db.cfgMap, old(db.cfgMap))
      invariant ConfigsGone(configs[..i], uuid, db.cfgMap)
    {
      ghost var t := db.Contents();
      var err := db.DeleteConfigFile(uuid, configs[i].fileID);
      DeletedOne(db.lossy, t.configs, (uuid, configs[i].fileID), db.cfgMap, err);
      AfterConfig(t0, service, uuid, t, db.Contents(), configs[i].fileID);
      if err.Some? && err != Some(RecordNotFound) {
        return false;
      }
    }
    assert configs[..|configs|] == configs;
    ok := true;
  }

  /** No volume of the member is attached. */
  predicate Detached(v: MemberVolumes, attached: set<string>) {
    && (v.primaryVolumeID != "" ==> v.primaryVolumeID !in attached)
    && (v.journalVolumeID != "" ==> v.journalVolumeID !in attached)
  }

  /** A volume that is attached somewhere is detached. */
  method DetachOne(cloud: Platform, volID: string) returns (ok: bool)
    requires cloud.Valid()
    modifies cloud`attached
    ensures cloud.Valid() && (cloud.attached == old(cloud.attached) || cloud.attached == old(cloud.attached) - {volID})
    ensures ok ==> volID !in cloud.attached
    ensures cloud.reliable ==> ok
  {
    ok := true;
    var state := cloud.IsAttached(volID);
    if state.None? {
      return false;
    }
    if state.value {
      ok := cloud.DetachVolume(volID);
    }
  }

  method DetachVolumes(cloud: Platform, v: MemberVolumes) returns (ok: bool)
    requires cloud.Valid()
    modifies cloud`attached
    ensures cloud.Valid() && cloud.attached <= old(cloud.attached)
    ensures forall id :: id in old(cloud.attached) && id !in cloud.attached ==> id != "" && id in {v.primaryVolumeID, v.journalVolumeID}
    ensures ok ==> Detached(v, cloud.attached)
    ensures cloud.reliable ==> ok
  {
    if |v.journalVolumeID| != 0 {
      var detached := DetachOne(cloud, v.journalVolumeID);
      if !detached {
        return false;
      }
    }
    if |v.primaryVolumeID| != 0 {
      var detached := DetachOne(cloud, v.primaryVolumeID);
      if !detached {
        return false;
      }
    }
    ok := true;
  }

  /** The address and the config files of a member; its volumes are detached, but for Kubernetes, which sees to that. */
  method DeleteMemberResources(db: DB, cloud: Platform, m: ServiceMember, requireStaticIP: bool, ghost t0: Tables,
                               ghost service: string, ghost uuid: string)
    returns (ok: bool)
    requires db.Valid() && cloud.Valid() && Progress(t0, service, uuid, db.Contents())
    requires m.serviceUUID == uuid && (uuid, m.memberName) in db.memberMap && db.memberMap[(uuid, m.memberName)] == m
    requires requireStaticIP == t0.attrs[uuid].spec.requireStaticIP
    modifies db, cloud`attached
    ensures db.Valid() && cloud.Valid() && db.Contents() == old(db.Contents()).(configs := db.cfgMap, ips := db.ipMap)
    ensures Progress(t0, service, uuid, db.Contents()) && Sub(db.cfgMap, old(db.cfgMap)) && Sub(db.ipMap, old(db.ipMap))
    ensures ok ==> MemberGone(requireStaticIP, m, uuid, db.cfgMap, db.ipMap)
    ensures cloud.attached <= old(cloud.attached) && (ok && !cloud.k8s ==> Detached(m.spec.volumes, cloud.attached))
    ensures db.reliable && cloud.reliable ==> ok
  {
    hide Progress;
    ghost var t := db.Contents();
    if requireStaticIP {
      var err := db.DeleteServiceStaticIP(m.spec.staticIP);
      DeletedOne(db.lossy, t.ips, m.spec.staticIP, db.ipMap, err);
      AfterIP(t0, service, uuid, t, db.Contents(), m);
      if err.Some? && err != Some(RecordNotFound) {
        return false;
      }
    }
    forall i | 0 <= i < |m.spec.configs| ensures OwnConfig(t0, uuid, (uuid, m.spec.configs[i].fileID)) {
      MemberOwns(t0, service, uuid, t, m, i);
    }
    hide OwnConfig;
    ok := DeleteConfigFiles(db, m.serviceUUID, m.spec.configs, t0, service);
    if ok && !cloud.k8s {
      ok := DetachVolumes(cloud, m.spec.volumes);
    }
  }

  /** The addresses and config files of all members, before any of their records. */
  method DeleteResources(db: DB, cloud: Platform, members: seq<ServiceMember>, requireStaticIP: bool, ghost t0: Tables, ghost service: string,
                         ghost uuid: string)
    returns (ok: bool)
    requires db.Valid() && cloud.Valid()
    requires Progress(t0, service, uuid, db.Contents()) && requireStaticIP == t0.attrs[uuid].spec.requireStaticIP
    requires forall i :: 0 <= i < |members| ==>
               && members[i].serviceUUID == uuid && (uuid, members[i].memberName) in db.memberMap
               && db.memberMap[(uuid, members[i].memberName)] == members[i]
    modifies db, cloud`attached
    ensures db.Valid() && cloud.Valid() && db.Contents() == old(db.Contents()).(configs := db.cfgMap, ips := db.ipMap)
    ensures Progress(t0, service, uuid, db.Contents())
    ensures ok ==> forall i :: 0 <= i < |members| ==> MemberGone(requireStaticIP, members[i], uuid, db.cfgMap, db.ipMap)
    ensures cloud.attached <= old(cloud.attached)
    ensures ok && !cloud.k8s ==> forall i :: 0 <= i < |members| ==> Detached(members[i].spec.volumes, cloud.attached)
    ensures db.reliable && cloud.reliable ==> ok
  {
    hide Progress, MemberGone;
    for i := 0 to |members|
      invariant db.Valid() && cloud.Valid() && db.Contents() == old(db.Contents()).(configs := db.cfgMap, ips := db.ipMap)
      invariant Progress(t0, service, uuid, db.Contents()) && cloud.attached <= old(cloud.attached)
      invariant !cloud.k8s ==> forall k :: 0 <= k < i ==> Detached(members[k].spec.volumes, cloud.attached)
      invariant forall k :: 0 <= k < i ==> MemberGone(requireStaticIP, members[k], uuid, db.cfgMap, db.ipMap)
    {
      ghost var files, ips := db.cfgMap, db.ipMap;
      var deleted := DeleteMemberResources(db, cloud, members[i], requireStaticIP, t0, service, uuid);
      forall k | 0 <= k < i ensures MemberGone(requireStaticIP, members[k], uuid, db.cfgMap, db.ipMap) {
        GoneStays(requireStaticIP, members[k], uuid, files, ips, db.cfgMap, db.ipMap);
      }
      if !deleted {
        return false;
      }
    }
    ok := true;
  }

  lemma MemberOwns(t0: Tables, service: string, uuid: string, t: Tables, m: ServiceMember, i: nat)
    requires Progress(t0, service, uuid, t) && (uuid, m.memberName) in t.members && t.members[(uuid, m.memberName)] == m
    requires i < |m.spec.configs|
    ensures OwnConfig(t0, uuid, (uuid, m.spec.configs[i].fileID))
  {
    hide SameOrDeleting, OwnIP, OwnDevice, MemberGone, DevicesGone, ConfigsGone, NoMembers;
    assert Refers(t0.members[(uuid, m.memberName)].spec.configs, m.spec.configs[i].fileID);
  }

  lemma {:induction false} WithoutHas(ms: map<Key, ServiceMember>, uuid: string, r: seq<ServiceMember>, n: nat, i: nat)
    requires ListsMembers(ms, uuid, r) && n <= i < |r|
    ensures var key := (uuid, r[i].memberName); key in Without(ms, uuid, r[..n]) && Without(ms, uuid, r[..n])[key] == r[i]
  {
    if n > 0 {
      WithoutHas(ms, uuid, r, n - 1, i);
      assert r[..n][..n - 1] == r[..n - 1];
    }
  }

  lemma WithoutNext(ms: map<Key, ServiceMember>, uuid: string, r: seq<ServiceMember>, m: ServiceMember)
    ensures Without(ms, uuid, r + [m]) == Without(ms, uuid, r) - {(uuid, m.memberName)}
    ensures VolumeIDs(r + [m]) == VolumeIDs(r) + OwnVolumes(m)
  {
    assert (r + [m])[..|r|] == r;
  }

  lemma {:induction false} WithoutListed(ms: map<Key, ServiceMember>, uuid: string, r: seq<ServiceMember>, n: nat)
    requires n <= |r|
    ensures forall i :: 0 <= i < n ==> (uuid, r[i].memberName) !in Without(ms, uuid, r[..n])
    ensures Without(ms, uuid, r[..n]).Keys <= ms.Keys
  {
    if n > 0 {
      WithoutListed(ms, uuid, r, n - 1);
      assert r[..n][..n - 1] == r[..n - 1];
    }
  }

  lemma WithoutAll(ms: map<Key, ServiceMember>, uuid: string, r: seq<ServiceMember>)
    requires ListsMembers(ms, uuid, r)
    ensures NoMembers(uuid, Without(ms, uuid, r))
  {
    WithoutListed(ms, uuid, r, |r|);
    assert r[..|r|] == r;
    forall n ensures (uuid, n) !in Without(ms, uuid, r) {
      if (uuid, n) in ms {
        assert Listed(r, n);
        var i :| 0 <= i < |r| && r[i].memberName == n;
      }
    }
  }

  /** Nothing of other services is gone. */
  ghost predicate ClaimsGone(service: string, claims: map<Claim, string>, claims': map<Claim, string>) {
    Sub(claims', claims) && forall c :: c in claims && c !in claims' ==> c.0 == service
  }

  /** The platform keeps none of the member's volumes. */
  predicate Unclaimed(service: string, m: ServiceMember, claims: map<Claim, string>) {
    && (m.spec.volumes.primaryVolumeID != "" ==> (service, m.memberName, false) !in claims)
    && (m.spec.volumes.journalVolumeID != "" ==> (service, m.memberName, true) !in claims)
  }

  /** The platform forgets the volumes of the member; errors are ignored. */
  method DeleteServiceVolumes(cloud: Platform, service: string, m: ServiceMember)
    requires cloud.Valid()
    modifies cloud`claims
    ensures cloud.Valid() && ClaimsGone(service, old(cloud.claims), cloud.claims)
    ensures forall c :: c in old(cloud.claims) && c !in cloud.claims ==>
              && c.0 == service && c.1 == m.memberName
              && (if c.2 then m.spec.volumes.journalVolumeID != "" else m.spec.volumes.primaryVolumeID != "")
    ensures cloud.reliable ==> Unclaimed(service, m, cloud.claims)
  {
    if |m.spec.volumes.primaryVolumeID| != 0 {
      cloud.DeleteServiceVolume((service, m.memberName, false));
    }
    if |m.spec.volumes.journalVolumeID| != 0 {
      cloud.DeleteServiceVolume((service, m.memberName, true));
    }
  }

  lemma ClaimsGoneTwice(service: string, a: map<Claim, string>, b: map<Claim, string>, c: map<Claim, string>)
    ensures ClaimsGone(service, a, a)
    ensures ClaimsGone(service, a, b) && ClaimsGone(service, b, c) ==> ClaimsGone(service, a, c)
  {
  }

  lemma StaysUnclaimed(service: string, m: ServiceMember, claims: map<Claim, string>, claims': map<Claim, string>)
    requires ClaimsGone(service, claims, claims')
    ensures Unclaimed(service, m, claims) ==> Unclaimed(service, m, claims')
  {
  }

  /** The member records, one by one; the volumes of those that are gone are returned, unless the reply is lost. */
  method DeleteMembers(db: DB, cloud: Platform, serviceName: string, members: seq<ServiceMember>, ghost requireStaticIP: bool,
                       ghost t0: Tables, ghost service: string, ghost uuid: string)
    returns (volIDs: seq<string>, ok: bool, ghost a: Attempt)
    requires db.Valid() && cloud.Valid() && Progress(t0, service, uuid, db.Contents()) && ListsMembers(db.memberMap, uuid, members)
    requires forall i :: 0 <= i < |members| ==> members[i].serviceUUID == uuid
    requires requireStaticIP == t0.attrs[uuid].spec.requireStaticIP
    requires forall i :: 0 <= i < |members| ==> MemberGone(requireStaticIP, members[i], uuid, db.cfgMap, db.ipMap)
    requires !cloud.k8s ==> forall i :: 0 <= i < |members| ==> Detached(members[i].spec.volumes, cloud.attached)
    modifies db, cloud`claims
    ensures db.Valid() && cloud.Valid() && db.Contents() == old(db.Contents()).(members := db.memberMap)
    ensures Progress(t0, service, uuid, db.Contents())
    ensures a.todo == members && IsAttempt(db.lossy, uuid, old(db.memberMap), a) && (ok <==> a.fault.NoFault?)
    ensures volIDs == VolumeIDs(Returned(a)) && db.memberMap == After(old(db.memberMap), uuid, a)
    ensures ok ==> NoMembers(uuid, db.memberMap)
    ensures !cloud.k8s ==> forall id :: id in volIDs ==> id !in cloud.attached
    ensures ClaimsGone(serviceName, old(cloud.claims), cloud.claims)
    ensures ok && cloud.reliable ==> forall i :: 0 <= i < |members| ==> Unclaimed(serviceName, members[i], cloud.claims)
    ensures db.reliable && cloud.reliable ==> ok
  {
    hide Progress, MemberGone, ListsMembers, NoMembers, Without, VolumeIDs, Unclaimed, ClaimsGone;
    volIDs := [];
    ghost var before, claims0 := db.memberMap, cloud.claims;
    ClaimsGoneTwice(serviceName, claims0, claims0, claims0);
    NothingReturned(before, uuid);
    assert members[..0] == [];
    for i := 0 to |members|
      invariant db.Valid() && db.Contents() == old(db.Contents()).(members := db.memberMap)
      invariant Progress(t0, service, uuid, db.Contents())
      invariant db.memberMap == Without(before, uuid, members[..i]) && volIDs == VolumeIDs(members[..i])
      invariant cloud.Valid() && ClaimsGone(serviceName, claims0, cloud.claims)
      invariant !cloud.k8s ==> forall id :: id in volIDs ==> id !in cloud.attached
      invariant cloud.reliable ==> forall k :: 0 <= k < i ==> Unclaimed(serviceName, members[k], cloud.claims)
    {
      var m := members[i];
      ghost var claims := cloud.claims;
      DeleteServiceVolumes(cloud, serviceName, m);
      ClaimsGoneTwice(serviceName, claims0, claims, cloud.claims);
      forall k | 0 <= k < i ensures cloud.reliable ==> Unclaimed(serviceName, members[k], cloud.claims) {
        StaysUnclaimed(serviceName, members[k], claims, cloud.claims);
      }
      ghost var t := db.Contents();
      WithoutHas(before, uuid, members, i, i);
      WithoutNext(before, uuid, members[..i], m);
      assert members[..i + 1] == members[..i] + [m];
      ghost var f;
      var err;
      err, f := db.DeleteServiceMember(m.serviceUUID, m.memberName);
      AfterMember(t0, service, uuid, t, db.Contents(), m.memberName);
      if err.Some? && err != Some(RecordNotFound) {
        assert members[..i] + [] == members[..i];
        return volIDs, false, Attempt(members, i, f);
      }
      if |m.spec.volumes.primaryVolumeID| != 0 {
        volIDs := volIDs + [m.spec.volumes.primaryVolumeID];
      }
      if |m.spec.volumes.journalVolumeID| != 0 {
        volIDs := volIDs + [m.spec.volumes.journalVolumeID];
      }
      assert volIDs == VolumeIDs(members[..i]) + OwnVolumes(m);
    }
    WithoutAll(before, uuid, members);
    assert members[..|members|] == members && members + [] == members;
    ok, a := true, Attempt(members, |members|, NoFault);
  }

  lemma NothingReturned(ms: map<Key, ServiceMember>, uuid: string)
    ensures Without(ms, uuid, []) == ms && VolumeIDs([]) == []
    ensures After(ms, uuid, NO_ATTEMPT) == ms && VolumeIDs(Returned(NO_ATTEMPT)) == []
  {
    assert Returned(NO_ATTEMPT) + Lost(NO_ATTEMPT) == [];
  }

  method DeleteDevices(db: DB, sv: ServiceVolumes, ghost t0: Tables, ghost service: string, ghost uuid: string) returns (ok: bool)
    requires db.Valid() && Progress(t0, service, uuid, db.Contents()) && sv == t0.attrs[uuid].spec.volumes
    modifies db
    ensures db.Valid() && db.Contents() == old(db.Contents()).(devices := db.devMap)
    ensures Progress(t0, service, uuid, db.Contents())
    ensures ok ==> DevicesGone(sv, db.devMap)
    ensures db.reliable ==> ok
  {
    assert uuid in t0.attrs;
    hide Progress;
    ghost var t := db.Contents();
    if |sv.primaryDeviceName| != 0 {
      var err := db.DeleteDevice(sv.primaryDeviceName);
      DeletedOne(db.lossy, t.devices, sv.primaryDeviceName, db.devMap, err);
      AfterDevice(t0, service, uuid, t, db.Contents(), sv.primaryDeviceName);
      if err.Some? && err != Some(RecordNotFound) {
        return false;
      }
    }
    t := db.Contents();
    if |sv.journalDeviceName| != 0 {
      var err := db.DeleteDevice(sv.journalDeviceName);
      DeletedOne(db.lossy, t.devices, sv.journalDeviceName, db.devMap, err);
      AfterDevice(t0, service, uuid, t, db.Contents(), sv.journalDeviceName);
      if err.Some? && err != Some(RecordNotFound) {
        return false;
      }
    }
    ok := true;
  }

  lemma AttrRead(t0: Tables, service: string, uuid: string, t: Tables)
    requires Progress(t0, service, uuid, t)
    ensures service in t.services ==> t.services[service] == uuid
    ensures uuid in t0.attrs && service in t0.services
    ensures uuid in t.attrs ==> SameOrDeleting(t0.attrs[uuid], t.attrs[uuid]) && t.attrs[uuid].spec == t0.attrs[uuid].spec
    ensures uuid !in t.attrs ==> NoMembers(uuid, t.members)
  {
    hide OwnConfig, OwnIP, OwnDevice, MemberGone, DevicesGone, ConfigsGone, NoMembers;
  }

  lemma AttrOwns(t0: Tables, uuid: string)
    requires uuid in t0.attrs
    ensures var c := t0.attrs[uuid].spec.serviceConfigs;
            forall i :: 0 <= i < |c| ==> OwnConfig(t0, uuid, (uuid, c[i].fileID))
  {
    var c := t0.attrs[uuid].spec.serviceConfigs;
    forall i | 0 <= i < |c| ensures OwnConfig(t0, uuid, (uuid, c[i].fileID)) { assert Refers(c, c[i].fileID); }
  }

  /** The status becomes DELETING, unless an earlier attempt has set it. */
  method MarkDeleting(db: DB, attr: ServiceAttr, ghost t0: Tables, ghost service: string, ghost uuid: string)
    returns (r: Option<ServiceAttr>)
    requires db.Valid() && Progress(t0, service, uuid, db.Contents()) && t0.attrs[uuid].serviceUUID == uuid
    requires uuid in db.svcAttrMap && db.svcAttrMap[uuid] == attr
    modifies db
    ensures db.Valid() && db.Contents() == old(db.Contents()).(attrs := db.svcAttrMap)
    ensures Progress(t0, service, uuid, db.Contents())
    ensures r.Some? ==> r.value.serviceUUID == uuid && r.value.spec == t0.attrs[uuid].spec
    ensures r.Some? ==> r.value.meta.serviceStatus == Deleting && uuid in db.svcAttrMap && db.svcAttrMap[uuid] == r.value
    ensures r.Some? ==> r.value.meta.serviceName == attr.meta.serviceName
    ensures db.svcAttrMap != old(db.svcAttrMap) ==>
              uuid in db.svcAttrMap && StatusChanged(attr, db.svcAttrMap[uuid], Deleting) && db.svcAttrMap[uuid].meta.serviceStatus == Deleting
    ensures db.reliable ==> r.Some?
  {
    AttrRead(t0, service, uuid, db.Contents());
    AttrKey(t0, service, uuid, db.Contents(), attr);
    hide Progress;
    if attr.meta.serviceStatus == Deleting {
      return Some(attr);
    }
    var now := *;
    var newAttr := UpdateServiceStatus(attr, Deleting, now);
    ghost var t := db.Contents();
    var err := db.UpdateServiceAttr(attr, newAttr);
    AfterStatus(t0, service, uuid, t, db.Contents(), now);
    r := if err.Some? then None else Some(newAttr);
  }

  /** What is left when the members are gone: config files, devices, attr and service. */
  method DeleteRest(db: DB, service: string, sattr: ServiceAttr, ghost t0: Tables, ghost uuid: string) returns (ok: bool)
    requires db.Valid() && Progress(t0, service, uuid, db.Contents()) && NoMembers(uuid, db.memberMap)
    requires sattr.serviceUUID == uuid && sattr.spec == t0.attrs[uuid].spec
    modifies db
    ensures db.Valid() && Progress(t0, service, uuid, db.Contents()) && db.memberMap == old(db.memberMap)
    ensures uuid in db.svcAttrMap ==> db.svcAttrMap == old(db.svcAttrMap)
    ensures ok ==> service !in db.svcMap && Gone(t0, service, uuid, db.Contents())
    ensures db.reliable ==> ok
  {
    assert uuid in t0.attrs;
    hide Underway, Progress, Gone, NoMembers, DevicesGone, ConfigsGone, OwnConfig;
    AttrOwns(t0, uuid);
    var deleted := DeleteConfigFiles(db, sattr.serviceUUID, sattr.spec.serviceConfigs, t0, service);
    if !deleted {
      return false;
    }
    deleted := DeleteDevices(db, sattr.spec.volumes, t0, service, uuid);
    if !deleted {
      return false;
    }
    ghost var t := db.Contents();
    var err := db.DeleteServiceAttr(sattr.serviceUUID);
    DeletedOne(db.lossy, t.attrs, uuid, db.svcAttrMap, err);
    AfterAttr(t0, service, uuid, t, db.Contents());
    if err.Some? && err != Some(RecordNotFound) {
      return false;
    }
    AttemptEnds(t0, service, uuid, db.Contents());
    ok := DeleteItem(db, service, t0, uuid, true);
    ItemOf(t0, service, uuid, db.Contents());
  }

  lemma ItemRead(t0: Tables, service: string, uuid: string, t: Tables)
    requires Underway(t0, service, uuid, t)
    ensures service in t.services ==> t.services[service] == uuid
    ensures uuid in t.attrs ==> uuid in t0.attrs
  {
    hide OwnConfig, OwnIP, OwnDevice, MemberGone, DevicesGone, ConfigsGone, NoMembers;
  }

  lemma ItemOf(t0: Tables, service: string, uuid: string, t: Tables)
    requires uuid in t0.attrs && Underway(t0, service, uuid, t)
    ensures Progress(t0, service, uuid, t)
  {
  }

  lemma AttemptEnds(t0: Tables, service: string, uuid: string, t: Tables)
    requires Progress(t0, service, uuid, t)
    ensures Underway(t0, service, uuid, t)
  {
    AttrRead(t0, service, uuid, t);
    hide Progress;
  }

  /**
   One attempt. Wherever it stops, only the service's own records are gone, and the volumes it returns
   are those of the members whose records it deleted. When it succeeds, the service is gone.
   */
  method DeleteService(db: DB, cloud: Platform, service: string, ghost t0: Tables, ghost uuid: string)
    returns (volIDs: seq<string>, ok: bool, ghost a: Attempt)
    requires db.Valid() && cloud.Valid() && Underway(t0, service, uuid, db.Contents())
    requires uuid in t0.attrs ==> t0.attrs[uuid].serviceUUID == uuid
    requires forall n :: (uuid, n) in t0.members ==> t0.members[(uuid, n)].serviceUUID == uuid
    modifies db, cloud`attached, cloud`claims
    ensures db.Valid() && cloud.Valid() && Underway(t0, service, uuid, db.Contents())
    ensures IsAttempt(db.lossy, uuid, old(db.memberMap), a) && (ok ==> a.fault.NoFault?)
    ensures volIDs == VolumeIDs(Returned(a)) && db.memberMap == After(old(db.memberMap), uuid, a)
    ensures ok ==> service !in db.svcMap && (uuid in t0.attrs ==> Gone(t0, service, uuid, db.Contents()))
    ensures service !in old(db.svcMap) ==> !ok && volIDs == [] && db.Contents() == old(db.Contents())
    ensures db.Contents() != old(db.Contents()) && uuid in db.svcAttrMap ==> db.svcAttrMap[uuid].meta.serviceStatus == Deleting
    ensures !cloud.k8s ==> forall id :: id in volIDs ==> id !in cloud.attached
    ensures uuid in old(db.svcAttrMap) ==> ClaimsGone(old(db.svcAttrMap)[uuid].meta.serviceName, old(cloud.claims), cloud.claims)
    ensures db.reliable && cloud.reliable ==> (ok <==> service in old(db.svcMap))
  {
    hide Underway, Progress, Gone, NoMembers, SameOrDeleting, MemberGone, ListsMembers, After, VolumeIDs, ClaimsGone, StatusChanged;
    if uuid in db.svcAttrMap { ClaimsGoneTwice(db.svcAttrMap[uuid].meta.serviceName, cloud.claims, cloud.claims, cloud.claims); }
    volIDs, ok, a := [], false, NO_ATTEMPT;
    NothingReturned(db.memberMap, uuid);
    ghost var t := db.Contents();
    ItemRead(t0, service, uuid, t);
    var sitem := db.GetService(service);
    if sitem.Error? {
      return;
    }
    var got := db.GetServiceAttr(sitem.value);
    if got.Error? {
      if got.error == RecordNotFound {
        ok := DeleteItem(db, service, t0, uuid, false);
      }
      return;
    }
    AttemptStarts(t0, service, uuid, t);
    var marked := MarkDeleting(db, got.value, t0, service, uuid);
    AttemptEnds(t0, service, uuid, db.Contents());
    if marked.None? {
      return;
    }
    var sattr := marked.value;
    var listed := db.ListServiceMembers(sattr.serviceUUID);
    if listed.None? {
      return;
    }
    var members := listed.value;
    ListedAreOwn(t0, service, uuid, db.Contents(), members);
    var deleted := DeleteResources(db, cloud, members, sattr.spec.requireStaticIP, t0, service, uuid);
    AttemptEnds(t0, service, uuid, db.Contents());
    if !deleted {
      return;
    }
    volIDs, deleted, a := DeleteMembers(db, cloud, sattr.meta.serviceName, members, sattr.spec.requireStaticIP, t0, service, uuid);
    AttemptEnds(t0, service, uuid, db.Contents());
    if deleted {
      ok := DeleteRest(db, service, sattr, t0, uuid);
      AttemptEnds(t0, service, uuid, db.Contents());
    }
  }

  lemma AttemptStarts(t0: Tables, service: string, uuid: string, t: Tables)
    requires Underway(t0, service, uuid, t) && uuid in t.attrs
    ensures uuid in t0.attrs && Progress(t0, service, uuid, t)
  {
    ItemRead(t0, service, uuid, t);
    hide Progress;
  }

  /** The service item, last. */
  method DeleteItem(db: DB, service: string, ghost t0: Tables, ghost uuid: string, absentIsFine: bool) returns (ok: bool)
    requires db.Valid() && Underway(t0, service, uuid, db.Contents()) && uuid !in db.svcAttrMap
    modifies db
    ensures db.Valid() && db.Contents() == old(db.Contents()).(services := db.svcMap)
    ensures Underway(t0, service, uuid, db.Contents())
    ensures ok ==> service !in db.svcMap && (uuid in t0.attrs ==> Gone(t0, service, uuid, db.Contents()))
    ensures db.reliable ==> (ok <==> service in old(db.svcMap) || absentIsFine)
  {
    hide Underway, Progress, Gone;
    ghost var t := db.Contents();
    var err := db.DeleteService(service);
    DeletedOne(db.lossy, t.services, service, db.svcMap, err);
    AfterItem(t0, service, uuid, t, db.Contents());
    ok := err.None? || (absentIsFine && err == Some(RecordNotFound));
  }

  lemma AfterItem(t0: Tables, service: string, uuid: string, t: Tables, t': Tables)
    requires Underway(t0, service, uuid, t) && uuid !in t.attrs
    requires t' == t || t' == t.(services := t.services - {service})
    ensures Underway(t0, service, uuid, t')
    ensures service !in t'.services && uuid in t0.attrs ==> Gone(t0, service, uuid, t')
  {
    hide Progress, Gone;
    if uuid in t0.attrs {
      AfterService(t0, service, uuid, t, t');
      if service !in t'.services { SuccessLeavesNothing(t0, service, uuid, t'); }
    } else {
      assert (t0.services - {service}) - {service} == t0.services - {service};
    }
  }

  lemma AttrKey(t0: Tables, service: string, uuid: string, t: Tables, a: ServiceAttr)
    requires Progress(t0, service, uuid, t) && uuid in t.attrs && t.attrs[uuid] == a
    ensures a.serviceUUID == t0.attrs[uuid].serviceUUID
  {
    hide OwnConfig, OwnIP, OwnDevice, MemberGone, DevicesGone, ConfigsGone, NoMembers;
  }

  lemma ListedAreOwn(t0: Tables, service: string, uuid: string, t: Tables, members: seq<ServiceMember>)
    requires Progress(t0, service, uuid, t) && ListsMembers(t.members, uuid, members)
    requires forall n :: (uuid, n) in t0.members ==> t0.members[(uuid, n)].serviceUUID == uuid
    ensures forall i :: 0 <= i < |members| ==>
              && members[i].serviceUUID == uuid && (uuid, members[i].memberName) in t.members
              && t.members[(uuid, members[i].memberName)] == members[i]
  {
    hide OwnConfig, OwnIP, OwnDevice, MemberGone, DevicesGone, ConfigsGone, NoMembers, SameOrDeleting;
  }

  // ---------------------------------------------------------------- results

  /** After a success nothing of the service is left. */
  ghost predicate Gone(t0: Tables, service: string, uuid: string, t: Tables) {
    && service !in t.services && uuid !in t.attrs && NoMembers(uuid, t.members)
    && (forall k :: OwnConfig(t0, uuid, k) ==> k !in t.configs)
    && (forall ip :: OwnIP(t0, uuid, ip) ==> ip !in t.ips)
    && (forall d :: OwnDevice(t0, uuid, d) ==> d !in t.devices)
  }

  lemma SuccessLeavesNothing(t0: Tables, service: string, uuid: string, t: Tables)
    requires Progress(t0, service, uuid, t) && service !in t.services
    ensures Gone(t0, service, uuid, t)
  {
    hide SameOrDeleting;
    var a := t0.attrs[uuid];
    forall k | OwnConfig(t0, uuid, k) ensures k !in t.configs {
      if !Refers(a.spec.serviceConfigs, k.1) {
        var n :| (uuid, n) in t0.members && Refers(t0.members[(uuid, n)].spec.configs, k.1);
        assert MemberGone(a.spec.requireStaticIP, t0.members[(uuid, n)], uuid, t.configs, t.ips);
      }
    }
    forall ip | OwnIP(t0, uuid, ip) ensures ip !in t.ips {
      var n :| (uuid, n) in t0.members && t0.members[(uuid, n)].spec.staticIP == ip;
      assert MemberGone(a.spec.requireStaticIP, t0.members[(uuid, n)], uuid, t.configs, t.ips);
    }
  }

  /** What is not the service's is untouched, at any time. */
  lemma OthersUntouched(t0: Tables, service: string, uuid: string, t: Tables)
    requires Progress(t0, service, uuid, t)
    ensures forall s :: s != service ==> SameAt(t.services, t0.services, s)
    ensures forall v :: v != uuid ==> SameAt(t.attrs, t0.attrs, v)
    ensures forall k: Key :: k.0 != uuid ==> SameAt(t.members, t0.members, k)
    ensures forall k: Key :: k.0 != uuid ==> SameAt(t.configs, t0.configs, k)
    ensures forall ip :: !OwnIP(t0, uuid, ip) ==> SameAt(t.ips, t0.ips, ip)
    ensures forall d :: !OwnDevice(t0, uuid, d) ==> SameAt(t.devices, t0.devices, d)
  {
    hide SameOrDeleting, MemberGone, DevicesGone, ConfigsGone, OwnIP, OwnDevice, NoMembers;
  }

  /** Attempts one after the other, with the member records before each and after the last. */
  ghost predicate Attempts(lossy: bool, uuid: string, states: seq<map<Key, ServiceMember>>, attempts: seq<Attempt>) {
    && |states| == |attempts| + 1
    && forall i :: 0 <= i < |attempts| ==>
         IsAttempt(lossy, uuid, states[i], attempts[i]) && states[i + 1] == After(states[i], uuid, attempts[i])
  }

  /** What the attempts return, one after the other. */
  function AllReturned(attempts: seq<Attempt>): seq<string> {
    if attempts == [] then [] else AllReturned(attempts[..|attempts| - 1]) + VolumeIDs(Returned(attempts[|attempts| - 1]))
  }

  /** The volumes of the members whose records went with a lost reply. */
  function AllLost(attempts: seq<Attempt>): seq<string> {
    if attempts == [] then [] else AllLost(attempts[..|attempts| - 1]) + VolumeIDs(Lost(attempts[|attempts| - 1]))
  }

  lemma {:induction false} WithoutConserves(ms: map<Key, ServiceMember>, uuid: string, r: seq<ServiceMember>, n: nat, id: string)
    requires ListsMembers(ms, uuid, r) && n <= |r| && id != ""
    ensures Count(VolumeIDs(r[..n]), id) + Volumes(Without(ms, uuid, r[..n]), uuid, id) == Volumes(ms, uuid, id)
  {
    hide Volumes, Count, TimesHeld;
    if n == 0 {
      CountOfNothing(id);
    } else {
      WithoutConserves(ms, uuid, r, n - 1, id);
      WithoutHas(ms, uuid, r, n - 1, n - 1);
      assert r[..n] == r[..n - 1] + [r[n - 1]];
      WithoutNext(ms, uuid, r[..n - 1], r[n - 1]);
      hide Without, VolumeIDs, ListsMembers;
      VolumesDelete(Without(ms, uuid, r[..n - 1]), uuid, r[n - 1].memberName, id);
      CountConcat(VolumeIDs(r[..n - 1]), OwnVolumes(r[n - 1]), id);
      CountVolumesOf(r[n - 1], id);
    }
  }

  lemma {:induction false} VolumesConcat(a: seq<ServiceMember>, b: seq<ServiceMember>)
    ensures VolumeIDs(a + b) == VolumeIDs(a) + VolumeIDs(b)
  {
    hide OwnVolumes;
    if b == [] {
      assert a + b == a;
    } else {
      var n := |b| - 1;
      assert (a + b)[..|a| + n] == a + b[..n] && (a + b)[|a| + n] == b[n];
      VolumesConcat(a, b[..n]);
      assert VolumeIDs(a + b) == VolumeIDs(a + b[..n]) + OwnVolumes(b[n]);
      hide VolumeIDs;
      assert (VolumeIDs(a) + VolumeIDs(b[..n])) + OwnVolumes(b[n]) == VolumeIDs(a) + (VolumeIDs(b[..n]) + OwnVolumes(b[n]));
    }
  }

  /** What an attempt returns, what it loses and what the members still have is what they had. */
  lemma AttemptConserves(lossy: bool, uuid: string, ms: map<Key, ServiceMember>, a: Attempt, id: string)
    requires IsAttempt(lossy, uuid, ms, a) && id != ""
    ensures Count(VolumeIDs(Returned(a)), id) + Count(VolumeIDs(Lost(a)), id) + Volumes(After(ms, uuid, a), uuid, id)
            == Volumes(ms, uuid, id)
  {
    hide Volumes, Count, VolumeIDs, ListsMembers;
    VolumesConcat(Returned(a), Lost(a));
    CountConcat(VolumeIDs(Returned(a)), VolumeIDs(Lost(a)), id);
    var n := if a.fault.FailAfter? then a.deleted + 1 else a.deleted;
    assert Returned(a) + Lost(a) == a.todo[..n];
    if a.todo == [] {
      assert a.todo[..n] == [];
      NothingReturned(ms, uuid);
      CountOfNothing(id);
    } else {
      WithoutConserves(ms, uuid, a.todo, n, id);
    }
  }

  /** The same over a sequence of attempts. */
  lemma {:induction false} AttemptsConserve(lossy: bool, uuid: string, states: seq<map<Key, ServiceMember>>,
                                            attempts: seq<Attempt>, id: string)
    requires Attempts(lossy, uuid, states, attempts) && id != ""
    ensures Count(AllReturned(attempts), id) + Count(AllLost(attempts), id) + Volumes(states[|attempts|], uuid, id)
            == Volumes(states[0], uuid, id)
    decreases |attempts|
  {
    hide Volumes, Count, VolumeIDs, IsAttempt, After;
    if attempts == [] {
      CountOfNothing(id);
    } else {
      var n := |attempts| - 1;
      forall i | 0 <= i < n
        ensures IsAttempt(lossy, uuid, states[..n + 1][i], attempts[..n][i])
        ensures states[..n + 1][i + 1] == After(states[..n + 1][i], uuid, attempts[..n][i])
      {
        assert IsAttempt(lossy, uuid, states[i], attempts[i]);
      }
      AttemptsConserve(lossy, uuid, states[..n + 1], attempts[..n], id);
      AttemptConserves(lossy, uuid, states[n], attempts[n], id);
      CountConcat(AllReturned(attempts[..n]), VolumeIDs(Returned(attempts[n])), id);
      CountConcat(AllLost(attempts[..n]), VolumeIDs(Lost(attempts[n])), id);
    }
  }

  /** A member without volumes loses nothing. */
  predicate HasVolume(m: ServiceMember) { m.spec.volumes.primaryVolumeID != "" || m.spec.volumes.journalVolumeID != "" }

  ghost predicate LosesVolume(attempts: seq<Attempt>) {
    exists i :: 0 <= i < |attempts| && LosesOne(attempts[i])
  }

  predicate LosesOne(a: Attempt) {
    a.fault.FailAfter? && a.deleted < |a.todo| && HasVolume(a.todo[a.deleted])
  }

  lemma {:induction false} LostVolumes(attempts: seq<Attempt>)
    ensures AllLost(attempts) != [] <==> LosesVolume(attempts)
    ensures forall id :: id in AllLost(attempts) ==> id != ""
    decreases |attempts|
  {
    hide Lost, VolumeIDs, LosesOne;
    if attempts != [] {
      var n := |attempts| - 1;
      LostVolumes(attempts[..n]);
      LostOne(attempts[n]);
      assert AllLost(attempts) == AllLost(attempts[..n]) + VolumeIDs(Lost(attempts[n]));
      assert LosesVolume(attempts) <==> LosesVolume(attempts[..n]) || LosesOne(attempts[n]) by { LosesLast(attempts); }
      hide AllLost, LosesVolume;
    }
  }

  lemma LosesLast(attempts: seq<Attempt>)
    requires attempts != []
    ensures var n := |attempts| - 1; LosesVolume(attempts) <==> LosesVolume(attempts[..n]) || LosesOne(attempts[n])
  {
    hide LosesOne;
    var n := |attempts| - 1;
    if LosesVolume(attempts) {
      var i :| 0 <= i < |attempts| && LosesOne(attempts[i]);
      if i < n { assert LosesOne(attempts[..n][i]); }
    }
    if LosesVolume(attempts[..n]) {
      var i :| 0 <= i < n && LosesOne(attempts[..n][i]);
      assert LosesOne(attempts[i]);
    }
  }

  lemma LostOne(a: Attempt)
    ensures VolumeIDs(Lost(a)) != [] <==> LosesOne(a)
    ensures forall id :: id in VolumeIDs(Lost(a)) ==> id != ""
  {
    if Lost(a) != [] {
      assert Lost(a)[..0] == [];
      assert VolumeIDs(Lost(a)) == VolumeIDs([]) + OwnVolumes(a.todo[a.deleted]);
    }
  }

  lemma {:induction false} CountIn(s: seq<string>, id: string)
    requires id in s
    ensures Count(s, id) > 0
  {
    var n := |s| - 1;
    if s[n] != id {
      assert id in s[..n];
      CountIn(s[..n], id);
    }
  }

  /** Every volume of every member is returned, as often as members have it. */
  ghost predicate AllVolumesAreReturned(uuid: string, before: map<Key, ServiceMember>, attempts: seq<Attempt>) {
    forall id :: id != "" ==> Count(AllReturned(attempts), id) == Volumes(before, uuid, id)
  }

  /**
   From the first attempt to the success, every volume of every member is returned exactly when no
   attempt lost the reply to the deletion of a member with a volume; on a store whose operations fail
   without effect that is always so.
   */
  lemma AllVolumesReturned(lossy: bool, uuid: string, states: seq<map<Key, ServiceMember>>, attempts: seq<Attempt>)
    requires Attempts(lossy, uuid, states, attempts) && NoMembers(uuid, states[|attempts|])
    ensures AllVolumesAreReturned(uuid, states[0], attempts) <==> !LosesVolume(attempts)
    ensures !lossy ==> !LosesVolume(attempts)
    ensures forall id :: id != "" ==> Count(AllReturned(attempts), id) + Count(AllLost(attempts), id) == Volumes(states[0], uuid, id)
  {
    forall id | id != ""
      ensures Count(AllReturned(attempts), id) + Count(AllLost(attempts), id) == Volumes(states[0], uuid, id)
    {
      hide Count, Volumes, NoMembers, Attempts;
      AttemptsConserve(lossy, uuid, states, attempts, id);
      NoVolumes(states[|attempts|], uuid, id);
    }
    forall i | 0 <= i < |attempts| ensures LosesOne(attempts[i]) ==> lossy {
      assert IsAttempt(lossy, uuid, states[i], attempts[i]);
    }
    LostVolumes(attempts);
    hide Count, Volumes, Attempts, LosesOne, AllLost, AllReturned;
    if AllLost(attempts) == [] {
      forall id ensures Count(AllLost(attempts), id) == 0 { CountOfNothing(id); }
    } else {
      var id := AllLost(attempts)[0];
      CountIn(AllLost(attempts), id);
      assert id != "";
    }
  }

  lemma HeldOnce(ms: map<Key, ServiceMember>, uuid: string, id: string)
    requires Vol.Apart(ms) && id != ""
    ensures Volumes(ms, uuid, id) == if exists name, journal :: Vol.Holds(ms, (uuid, name), journal, id) then 1 else 0
  {
    var ps, js := Primaries(ms, uuid, id), Journals(ms, uuid, id);
    forall k ensures (k in ps <==> k.0 == uuid && Vol.Holds(ms, k, false, id)) && (k in js <==> k.0 == uuid && Vol.Holds(ms, k, true, id)) {}
    if name, journal :| Vol.Holds(ms, (uuid, name), journal, id) {
      var k: Key := (uuid, name);
      assert if journal then ps == {} && js == {k} else ps == {k} && js == {};
    } else {
      forall k ensures k !in ps && k !in js {
        assert k.0 == uuid ==> k == (uuid, k.1);
      }
    }
  }

  /**
   When no volume is held twice, each volume of a member is returned exactly once over all attempts, and nothing
   else is, unless a reply is lost: then it is lost instead.
   */
  lemma EachReturnedOnce(lossy: bool, uuid: string, states: seq<map<Key, ServiceMember>>, attempts: seq<Attempt>, id: string)
    requires Attempts(lossy, uuid, states, attempts) && NoMembers(uuid, states[|attempts|]) && Vol.Apart(states[0]) && id != ""
    ensures Count(AllReturned(attempts), id) + Count(AllLost(attempts), id)
            == if exists name, journal :: Vol.Holds(states[0], (uuid, name), journal, id) then 1 else 0
    ensures !LosesVolume(attempts) ==> Count(AllLost(attempts), id) == 0
  {
    AllVolumesReturned(lossy, uuid, states, attempts);
    HeldOnce(states[0], uuid, id);
  }

  /** It happens, in two attempts: the reply to the deletion of the only member is lost, and the next attempt finds none. */
  lemma LostReplyLosesVolume(m: ServiceMember)
    requires m.spec.volumes.primaryVolumeID != ""
    ensures var uuid := m.serviceUUID;
            var before: map<Key, ServiceMember> := map[(uuid, m.memberName) := m];
            var attempts := [Attempt([m], 0, FailAfter), NO_ATTEMPT];
            && Attempts(true, uuid, [before, map[], map[]], attempts) && NoMembers(uuid, map[])
            && AllReturned(attempts) == [] && Volumes(before, uuid, m.spec.volumes.primaryVolumeID) > 0
            && !AllVolumesAreReturned(uuid, before, attempts)
  {
    var uuid, id := m.serviceUUID, m.spec.volumes.primaryVolumeID;
    var before: map<Key, ServiceMember> := map[(uuid, m.memberName) := m];
    var first := Attempt([m], 0, FailAfter);
    LostFirst(m);
    NothingReturned(map[], uuid);
    assert AllReturned([first, NO_ATTEMPT]) == [] by {
      assert [first, NO_ATTEMPT][..1] == [first] && [first][..0] == [];
      assert Returned(first) == [] && Returned(NO_ATTEMPT) == [];
      assert AllReturned([first]) == AllReturned([]) + VolumeIDs([]);
    }
    hide After, IsAttempt, AllReturned, VolumeIDs;
    assert Attempts(true, uuid, [before, map[], map[]], [first, NO_ATTEMPT]);
    CountOfNothing(id);
    assert (uuid, m.memberName) in Primaries(before, uuid, id);
  }

  lemma LostFirst(m: ServiceMember)
    ensures var uuid, first := m.serviceUUID, Attempt([m], 0, FailAfter);
            var before: map<Key, ServiceMember> := map[(uuid, m.memberName) := m];
            && IsAttempt(true, uuid, before, first) && After(before, uuid, first) == map[]
            && IsAttempt(true, uuid, map[], NO_ATTEMPT)
  {
    var uuid, first := m.serviceUUID, Attempt([m], 0, FailAfter);
    var before: map<Key, ServiceMember> := map[(uuid, m.memberName) := m];
    forall n | (uuid, n) in before ensures Listed([m], n) { assert [m][0].memberName == n; }
    assert Returned(first) + Lost(first) == [m] && [m][..0] == [];
    assert Without(before, uuid, [m]) == Without(before, uuid, []) - {(uuid, m.memberName)};
  }
}
