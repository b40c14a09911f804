/**
 A service that is created and then deleted, each in any number of attempts (pkg/managesvc/service.go).
 */
module RoundTrip {
  import opened Text
  import opened NextIP
  import opened Records
  import opened Store
  import C = Creation
  import M = Members
  import V = ServiceDevices
  import D = Deletion
  import Devices
  import ConfigFiles
  import StaticIPs

  /** The deletion may start from what a complete creation leaves. */
  lemma CreatedCanBeDeleted(j: C.Job, base: Tables, t: Tables)
    requires C.Complete(j, base, t) && j.req.replicas == |j.req.replicaConfigs|
    ensures j.req.service in t.services
    ensures D.Underway(t, j.req.service, t.services[j.req.service], t)
    ensures t.attrs[t.services[j.req.service]].serviceUUID == t.services[j.req.service]
  {
    C.CompleteParts(j, base, t);
    hide C.Complete, V.HasDevices, M.Made, C.VolumesOf, M.FilesOf, C.NewUUID;
    D.NothingDeleted(t, j.req.service);
  }

  lemma CreatedParts(j: C.Job, base: Tables, t: Tables, u: string, k: nat)
    requires C.Parts(j, base, t, u, k)
    ensures u in t.attrs && t.attrs[u].spec.volumes == C.VolumesOf(j.req, base.devices)
    ensures V.HasDevices(base.devices, j.req.service, C.Wanted(j.req), t.devices)
    ensures StaticIPs.IPsAdded(base.ips, t.ips, u) && (!j.req.requireStaticIP ==> t.ips == base.ips)
    ensures t.services == base.services[j.req.service := u] && t.attrs == base.attrs[u := t.attrs[u]] && u !in base.attrs
  {
    hide V.HasDevices, C.VolumesOf, M.MembersOK, M.FilesOK, M.FilesOf, M.IPsOK, NoMembers, M.NoFiles, StaticIPs.IPsAdded;
  }

  lemma DeletedParts(t0: Tables, service: string, u: string, t: Tables)
    requires D.Progress(t0, service, u, t)
    ensures service !in t.services ==> t.services == t0.services - {service} && t.attrs == t0.attrs - {u}
    ensures D.Sub(t.ips, t0.ips) && (forall ip :: ip in t0.ips && ip !in t.ips ==> D.OwnIP(t0, u, ip))
    ensures D.Sub(t.devices, t0.devices) && (forall d :: d in t0.devices && d !in t.devices ==> D.OwnDevice(t0, u, d))
  {
    hide D.SameOrDeleting, D.OwnConfig, D.OwnIP, D.OwnDevice, D.MemberGone, D.DevicesGone, D.ConfigsGone, NoMembers, D.Sub;
  }

  lemma GoneDevices(t0: Tables, service: string, u: string, t: Tables)
    requires D.Gone(t0, service, u, t)
    ensures forall d :: D.OwnDevice(t0, u, d) ==> d !in t.devices
  {
    hide D.OwnConfig, D.OwnIP, D.OwnDevice, NoMembers;
  }

  lemma GoneIPs(t0: Tables, service: string, u: string, t: Tables)
    requires D.Gone(t0, service, u, t)
    ensures forall ip :: D.OwnIP(t0, u, ip) ==> ip !in t.ips
  {
    hide D.OwnConfig, D.OwnIP, D.OwnDevice, NoMembers;
  }

  /** Records of the base stay and the service's go: the tables are as before the creation. */
  lemma SameTable<K, V>(base: map<K, V>, t0: map<K, V>, t: map<K, V>)
    requires D.Sub(t, t0) && (forall k :: k in base ==> k in t0 && t0[k] == base[k])
    requires forall k :: k in t0 ==> (k in t <==> k in base)
    ensures t == base
  {
  }

  lemma MembersRestored(j: C.Job, base: Tables, t0: Tables, t: Tables, u: string, k: nat)
    requires C.Parts(j, base, t0, u, k) && D.Progress(t0, j.req.service, u, t) && D.Gone(t0, j.req.service, u, t)
    ensures t.members == base.members
  {
    var p, sv := C.PlanOf(j), C.VolumesOf(j.req, base.devices);
    hide V.HasDevices, C.VolumesOf, M.FilesOf, M.FilesOK, M.IPsOK, M.IsMember, C.IsAttr, D.SameOrDeleting, StaticIPs.IPsAdded, M.NoFiles;
    hide D.OwnConfig, D.OwnIP, D.OwnDevice, D.MemberGone, D.DevicesGone, D.ConfigsGone;
    forall key: Key | key in t0.members ensures key in t.members <==> key in base.members {
      if key.0 == u { assert (u, key.1) !in t.members; }
    }
    SameTable(base.members, t0.members, t.members);
  }

  /** An initial file of the member that is next after k: an attempt stored it, and stopped before the member. */
  ghost predicate OfNextMember(p: M.Plan, u: string, k: nat, key: Key) {
    k < |p.replicas| && OfOwner(p, u, k + 1, key)
  }

  ghost predicate OfOwner(p: M.Plan, u: string, o: nat, key: Key)
    requires o <= |p.replicas|
  {
    exists i: nat :: i < |M.ConfigsAt(p, o)| && key == (u, M.IDAt(p, o, i))
  }

  /** Every file that the creation added is referred to by the attr or a member, or is the next member's. */
  lemma PlannedIsOwn(j: C.Job, base: Tables, t0: Tables, u: string, k: nat, key: Key)
    requires C.Parts(j, base, t0, u, k) && key in t0.configs && key !in base.configs
    ensures D.OwnConfig(t0, u, key) || OfNextMember(C.PlanOf(j), u, k, key)
  {
    var p, sv := C.PlanOf(j), C.VolumesOf(j.req, base.devices);
    hide V.HasDevices, C.VolumesOf, M.FilesOf, M.IPsOK, StaticIPs.IPsAdded, M.NoFiles, ConfigFiles.FileID, ConfigFiles.IsInit;
    assert M.Planned(p, u, key, t0.configs[key], k + 1);
    var o: nat, i: nat :| o <= k + 1 && M.IsFile(p, u, o, i, key, t0.configs[key]);
    hide M.Planned, M.FilesOK;
    if o == 0 {
      RefersTo(p.md5, p.service, p.serviceConfigs, i);
      assert t0.attrs[u].spec.serviceConfigs == ConfigFiles.IDsOf(p.md5, p.service, p.serviceConfigs);
    } else if o <= k {
      var c := p.replicas[o - 1];
      RefersTo(p.md5, c.memberName, c.configs, i);
      assert M.IsMember(p, u, sv, o - 1, t0.members[M.MemberKey(p, u, o - 1)]);
      assert (u, c.memberName) in t0.members;
    } else {
      assert key == (u, M.IDAt(p, k + 1, i));
    }
  }

  /** No reference is to a file of the next member. */
  lemma NextIsNotOwn(j: C.Job, base: Tables, t0: Tables, u: string, k: nat, key: Key)
    requires C.ValidJob(j) && C.Parts(j, base, t0, u, k) && OfNextMember(C.PlanOf(j), u, k, key)
    ensures !D.OwnConfig(t0, u, key)
  {
    var p, sv := C.PlanOf(j), C.VolumesOf(j.req, base.devices);
    var i: nat :| i < |M.ConfigsAt(p, k + 1)| && key == (u, M.IDAt(p, k + 1, i));
    PartsHaveMembers(j, base, t0, u, k);
    hide C.Parts, M.MembersOf, M.IPsOK, M.ValidPlan, ConfigFiles.AllStored, C.VolumesOf, ConfigFiles.FileID;
    var refs := t0.attrs[u].spec.serviceConfigs;
    assert M.NotLater(p, k, refs) by { assert M.RefsAt(p, u, refs, t0.members, 0) == refs; }
    NotReferred(p, k, refs, i);
    forall n | (u, n) in t0.members ensures !D.Refers(t0.members[(u, n)].spec.configs, key.1) {
      var o := MemberOwner(p, u, sv, t0.members, k, n);
      assert M.RefsAt(p, u, refs, t0.members, o) == t0.members[(u, n)].spec.configs;
      NotReferred(p, k, t0.members[(u, n)].spec.configs, i);
    }
  }

  lemma MemberOwner(p: M.Plan, u: string, sv: ServiceVolumes, ms: map<Key, ServiceMember>, k: nat, n: string) returns (o: nat)
    requires M.MembersOf(p, u, sv, ms, k) && (u, n) in ms
    ensures 0 < o <= k && M.MemberKey(p, u, o - 1) == (u, n)
  {
    var i :| 0 <= i < k && n == p.replicas[i].memberName;
    o := i + 1;
  }

  lemma NotReferred(p: M.Plan, k: nat, configs: seq<ConfigID>, i: nat)
    requires M.NotLater(p, k, configs) && k < |p.replicas| && i < |M.ConfigsAt(p, k + 1)|
    ensures !D.Refers(configs, M.IDAt(p, k + 1, i))
  {
    hide M.IDAt;
  }

  lemma PartsHaveMembers(j: C.Job, base: Tables, t0: Tables, u: string, k: nat)
    requires C.ValidJob(j) && C.Parts(j, base, t0, u, k)
    ensures M.HasMembers(C.PlanOf(j), u, C.VolumesOf(j.req, base.devices), t0.attrs[u].spec.serviceConfigs, t0, k)
  {
    hide V.HasDevices, C.VolumesOf, M.Made, M.FilesOf, M.HasMembers, M.ValidPlan, M.Unused;
    assert M.Unused(u, base);
    M.MadeHasMembers(C.PlanOf(j), u, C.VolumesOf(j.req, base.devices), base, t0, k);
  }

  lemma RefersTo(md5: string -> string, prefix: string, cfgs: seq<ConfigFileContent>, i: nat)
    requires i < |cfgs|
    ensures D.Refers(ConfigFiles.IDsOf(md5, prefix, cfgs), ConfigFiles.FileID(md5, prefix, cfgs[i].fileName))
  {
    hide ConfigFiles.FileID;
    assert ConfigFiles.IDsOf(md5, prefix, cfgs)[i].fileID == ConfigFiles.FileID(md5, prefix, cfgs[i].fileName);
  }

  /** Of the files that the creation added, exactly those of the next member are left. */
  ghost predicate FilesLeft(p: M.Plan, u: string, k: nat, base: map<Key, ConfigFile>, t0: map<Key, ConfigFile>, t: map<Key, ConfigFile>) {
    && D.Sub(t, t0) && ConfigFiles.Grown(base, t)
    && forall key :: key in t0 && key !in base ==> (key in t <==> OfNextMember(p, u, k, key))
  }

  lemma ConfigsRestored(j: C.Job, base: Tables, t0: Tables, t: Tables, u: string, k: nat)
    requires C.ValidJob(j) || k == |j.req.replicaConfigs|
    requires C.Parts(j, base, t0, u, k) && D.Progress(t0, j.req.service, u, t) && D.Gone(t0, j.req.service, u, t)
    ensures FilesLeft(C.PlanOf(j), u, k, base.configs, t0.configs, t.configs)
  {
    forall key | key in t0.configs && key !in base.configs
      ensures D.OwnConfig(t0, u, key) <==> !OfNextMember(C.PlanOf(j), u, k, key)
    {
      PlannedIsOwn(j, base, t0, u, k, key);
      if OfNextMember(C.PlanOf(j), u, k, key) { NextIsNotOwn(j, base, t0, u, k, key); }
    }
    hide V.HasDevices, C.VolumesOf, M.FilesOf, M.IPsOK, M.MembersOK, C.IsAttr, D.SameOrDeleting, StaticIPs.IPsAdded, M.Planned;
    hide D.OwnConfig, D.OwnIP, D.OwnDevice, D.MemberGone, D.DevicesGone, D.ConfigsGone, OfNextMember, C.ValidJob;
    BaseConfigsKept(j, base, t0, t, u, k);
  }

  lemma BaseConfigsKept(j: C.Job, base: Tables, t0: Tables, t: Tables, u: string, k: nat)
    requires C.Parts(j, base, t0, u, k) && D.Progress(t0, j.req.service, u, t)
    ensures ConfigFiles.Grown(base.configs, t.configs)
  {
    hide V.HasDevices, C.VolumesOf, M.FilesOf, M.IPsOK, M.MembersOK, C.IsAttr, D.SameOrDeleting, StaticIPs.IPsAdded, M.Planned;
    hide D.OwnIP, D.OwnDevice, D.MemberGone, D.DevicesGone, D.ConfigsGone;
    forall key | key in base.configs ensures key in t.configs && t.configs[key] == base.configs[key] {
      assert key.0 != u && key in t0.configs;
    }
  }

  /** The names of the devices that a creation uses. */
  ghost function Used(base: Devices.Table, service: string, k: nat): set<string> {
    if k == 0 then {}
    else if k == 1 then {V.Primary(base, service)}
    else {V.Primary(base, service), V.Journal(base, service)}
  }

  ghost predicate NoDevices(base: Devices.Table, service: string) { forall d :: d in base ==> base[d] != service }

  /** The devices that the creation used are gone, also those that were there before it; no other one is. */
  ghost predicate DevicesLeft(base: Devices.Table, service: string, k: nat, t: Devices.Table) {
    && t == base - Used(base, service, k)
    && (NoDevices(base, service) ==> t == base)
  }

  lemma DevicesRestored(j: C.Job, base: Tables, t0: Tables, t: Tables, u: string, k: nat)
    requires V.NewName(base.devices, j.req.service)
    requires C.Parts(j, base, t0, u, k) && D.Progress(t0, j.req.service, u, t) && D.Gone(t0, j.req.service, u, t)
    ensures DevicesLeft(base.devices, j.req.service, C.Wanted(j.req), t.devices)
  {
    hide C.Parts, D.Progress, D.Gone, V.NewName, V.HasDevices, D.OwnDevice, Used, C.Wanted, C.VolumesOf, V.WithDevices, NoDevices;
    CreatedParts(j, base, t0, u, k);
    DeletedParts(t0, j.req.service, u, t);
    GoneDevices(t0, j.req.service, u, t);
    var n := C.Wanted(j.req);
    UsedAdded(base.devices, j.req.service, n, t0.devices);
    forall d | d in t0.devices ensures d in t.devices <==> d !in Used(base.devices, j.req.service, n) {
      OwnsUsed(j, base.devices, t0, u, d);
    }
    UsedGone(base.devices, j.req.service, n, t0.devices, t.devices);
  }

  lemma UsedGone(base: Devices.Table, service: string, k: nat, t0: Devices.Table, t: Devices.Table)
    requires t0.Keys == base.Keys + Used(base, service, k)
    requires forall d :: d in base && d !in Used(base, service, k) ==> t0[d] == base[d]
    requires NoDevices(base, service) ==> base.Keys !! Used(base, service, k)
    requires D.Sub(t, t0) && forall d :: d in t0 ==> (d in t <==> d !in Used(base, service, k))
    ensures DevicesLeft(base, service, k, t)
  {
    hide Used, NoDevices;
    assert t == base - Used(base, service, k);
  }

  lemma OwnsUsed(j: C.Job, base: Devices.Table, t0: Tables, u: string, d: string)
    requires u in t0.attrs && t0.attrs[u].spec.volumes == C.VolumesOf(j.req, base)
    ensures D.OwnDevice(t0, u, d) <==> d != "" && d in Used(base, j.req.service, C.Wanted(j.req))
  {
    hide V.Primary, V.Journal;
  }

  /** The table has the devices that were there and the used ones; a used one that was there is the service's. */
  lemma UsedAdded(base: Devices.Table, service: string, k: nat, t: Devices.Table)
    requires V.NewName(base, service) && V.HasDevices(base, service, k, t)
    ensures t.Keys == base.Keys + Used(base, service, k) && "" !in t
    ensures forall d :: d in base && d !in Used(base, service, k) ==> t[d] == base[d]
    ensures NoDevices(base, service) ==> base.Keys !! Used(base, service, k)
  {
    V.NoEmptyName(base);
    if k > 0 { PrimaryIsOwn(base, service); }
    if k > 1 { JournalIsOwn(base, service); }
    hide V.NewName, V.Primary, V.Journal;
  }

  lemma PrimaryIsOwn(base: Devices.Table, service: string)
    requires V.NewName(base, service)
    ensures V.Primary(base, service) in base ==> base[V.Primary(base, service)] == service
  {
    V.PickCases(base, service, "");
    hide V.NewName, V.Pick, Devices.Top, Devices.NoHit, Devices.FirstHit, V.Dev;
  }

  lemma JournalIsOwn(base: Devices.Table, service: string)
    requires V.NewName(base, service) && V.Primary(base, service) != ""
    ensures V.Journal(base, service) in base ==> base[V.Journal(base, service)] == service
  {
    PrimaryIsOwn(base, service);
    V.PrimaryIsHit(base, service);
    V.PickCases(V.WithDevices(base, service, 1), service, V.Primary(base, service));
    hide V.NewName, V.Pick, Devices.Top, Devices.NoHit, Devices.FirstHit, V.Dev, V.Primary;
  }

  /** The addresses recorded for the service that no member has are left. */
  ghost predicate AddressesLeft(u: string, base: map<IP, ServiceStaticIP>, t0: Tables, t: map<IP, ServiceStaticIP>) {
    StaticIPs.IPsAdded(base, t, u) && forall ip :: ip in t <==> ip in base || (ip in t0.ips && !D.OwnIP(t0, u, ip))
  }

  /**
   A creation that got to its attr and to k members, then deletion, each in any number of attempts: exactly
   the files that were stored for the next member and the addresses that no member had are left.
   */
  lemma StoppedThenDelete(j: C.Job, base: Tables, t0: Tables, t: Tables, u: string, k: nat)
    requires (C.ValidJob(j) || k == |j.req.replicaConfigs|) && C.NewService(j, base) && C.Parts(j, base, t0, u, k)
    requires D.Progress(t0, j.req.service, u, t) && j.req.service !in t.services
    ensures t == base.(devices := t.devices, configs := t.configs, ips := t.ips)
    ensures DevicesLeft(base.devices, j.req.service, C.Wanted(j.req), t.devices)
    ensures FilesLeft(C.PlanOf(j), u, k, base.configs, t0.configs, t.configs) && AddressesLeft(u, base.ips, t0, t.ips)
    ensures !j.req.requireStaticIP ==> t.ips == base.ips
  {
    D.SuccessLeavesNothing(t0, j.req.service, u, t);
    MembersRestored(j, base, t0, t, u, k);
    ConfigsRestored(j, base, t0, t, u, k);
    DevicesRestored(j, base, t0, t, u, k);
    ServiceRestored(j, base, t0, t, u, k);
    IPsRestored(j, base, t0, t, u, k);
  }

  /**
   Without an attr the deletion takes the service record only: the devices and the files of the service
   that the creation stored are left, all of them.
   */
  lemma WithoutAttrThenDelete(j: C.Job, base: Tables, t0: Tables, t: Tables)
    requires C.NewService(j, base) && C.Partial(j, base, t0) && j.req.service in t0.services
    requires t0.services[j.req.service] !in t0.attrs
    requires D.Underway(t0, j.req.service, t0.services[j.req.service], t) && j.req.service !in t.services
    ensures t == base.(devices := t0.devices, configs := t0.configs)
    ensures V.HasDevices(base.devices, j.req.service, C.Wanted(j.req), t.devices)
    ensures M.FilesOK(C.PlanOf(j), t0.services[j.req.service], base.configs, t.configs, 0)
  {
    C.NewHasNoService(j, base, t0);
    hide V.HasDevices, V.NewName, M.Made, C.VolumesOf, M.FilesOf, M.FilesOK;
    PutAndRemove(base.services, j.req.service, t0.services[j.req.service]);
  }

  /**
   Creation, then deletion, each with any number of interrupted attempts: everything is as before but
   for addresses that were recorded for the service and not given to a member.
   */
  lemma CreateThenDelete(j: C.Job, base: Tables, t0: Tables, t: Tables)
    requires C.NewService(j, base) && C.Complete(j, base, t0) && j.req.replicas == |j.req.replicaConfigs|
    requires j.req.service in t0.services && D.Underway(t0, j.req.service, t0.services[j.req.service], t)
    requires j.req.service !in t.services
    ensures t == base.(devices := t.devices, ips := t.ips)
    ensures DevicesLeft(base.devices, j.req.service, C.Wanted(j.req), t.devices)
    ensures AddressesLeft(t0.services[j.req.service], base.ips, t0, t.ips)
    ensures NoDevices(base.devices, j.req.service) && !j.req.requireStaticIP ==> t == base
  {
    var u := t0.services[j.req.service];
    C.CompleteParts(j, base, t0);
    hide C.Complete, C.ValidJob, C.NewService, D.Progress, C.Parts, AddressesLeft, Used, NoDevices, FilesLeft;
    assert u in t0.attrs by { CreatedParts(j, base, t0, u, |j.req.replicaConfigs|); }
    StoppedThenDelete(j, base, t0, t, u, |j.req.replicaConfigs|);
    NoFilesLeft(C.PlanOf(j), u, base.configs, t0.configs, t.configs);
  }

  lemma NoFilesLeft(p: M.Plan, u: string, base: map<Key, ConfigFile>, t0: map<Key, ConfigFile>, t: map<Key, ConfigFile>)
    requires FilesLeft(p, u, |p.replicas|, base, t0, t)
    ensures t == base
  {
  }

  /** A creation stopped anywhere after its service record is one of the two: with an attr, or without. */
  lemma StoppedAnywhere(j: C.Job, base: Tables, t0: Tables) returns (k: nat)
    requires C.NewService(j, base) && C.Partial(j, base, t0) && j.req.service in t0.services
    ensures var u := t0.services[j.req.service];
            && u !in base.attrs
            && if u in t0.attrs then C.Parts(j, base, t0, u, k)
               else C.WithoutAttr(j, u, base, t0) && t0.services == base.services[j.req.service := u]
  {
    C.NewHasNoService(j, base, t0);
    k := 0;
    var u := t0.services[j.req.service];
    hide V.HasDevices, V.NewName, M.Made, C.VolumesOf, M.FilesOf, M.FilesOK, C.IsAttr;
    if u in t0.attrs {
      assert !C.WithoutAttr(j, u, base, t0);
      k :| C.WithAttr(j, u, base, t0, k);
    }
  }

  lemma ServiceRestored(j: C.Job, base: Tables, t0: Tables, t: Tables, u: string, k: nat)
    requires C.NewService(j, base) && C.Parts(j, base, t0, u, k) && D.Progress(t0, j.req.service, u, t) && j.req.service !in t.services
    ensures t.services == base.services && t.attrs == base.attrs
  {
    hide C.Parts, D.Progress, V.NewName, V.HasDevices, StaticIPs.IPsAdded, C.VolumesOf;
    CreatedParts(j, base, t0, u, k);
    DeletedParts(t0, j.req.service, u, t);
    PutAndRemove(base.services, j.req.service, u);
    PutAndRemove(base.attrs, u, t0.attrs[u]);
  }

  lemma PutAndRemove<K, V>(m: map<K, V>, k: K, v: V)
    requires k !in m
    ensures m[k := v] - {k} == m
  {
  }

  lemma IPsRestored(j: C.Job, base: Tables, t0: Tables, t: Tables, u: string, k: nat)
    requires C.Parts(j, base, t0, u, k) && D.Progress(t0, j.req.service, u, t) && D.Gone(t0, j.req.service, u, t)
    ensures AddressesLeft(u, base.ips, t0, t.ips)
    ensures !j.req.requireStaticIP ==> t.ips == base.ips
  {
    hide C.Parts, D.Progress, D.OwnIP, V.HasDevices, C.VolumesOf, D.Gone;
    GoneIPs(t0, j.req.service, u, t);
    OnlyRecorded(j, base, t0, u, k);
    CreatedParts(j, base, t0, u, k);
    DeletedParts(t0, j.req.service, u, t);
  }

  /** The addresses of members are recorded for the service, so none of them was recorded before. */
  lemma OnlyRecorded(j: C.Job, base: Tables, t0: Tables, u: string, k: nat)
    requires C.Parts(j, base, t0, u, k)
    ensures forall ip :: D.OwnIP(t0, u, ip) ==> ip !in base.ips && j.req.requireStaticIP
  {
    var p, sv := C.PlanOf(j), C.VolumesOf(j.req, base.devices);
    hide V.HasDevices, C.VolumesOf, M.FilesOf, M.FilesOK, M.IsMember;
    forall ip | D.OwnIP(t0, u, ip) ensures ip !in base.ips && j.req.requireStaticIP {
      var n :| (u, n) in t0.members && t0.members[(u, n)].spec.staticIP == ip;
      var i :| 0 <= i < k && (u, n) == M.MemberKey(p, u, i);
      assert M.IPOf(p, u, t0.members, i) == ip;
    }
  }

  // ---------------------------------------------------------------- the next service

  /** Whatever a creation of one service has left, another one can be created next, or the same one again. */
  lemma CreationKeepsNew(j: C.Job, base: Tables, t: Tables, other: string)
    requires C.NewService(j, base) && V.NewName(base.devices, other) && C.Partial(j, base, t)
    requires Devices.ToLower(other) != Devices.ToLower(j.req.service) || other == j.req.service
    ensures V.NewName(t.devices, other)
  {
    var n := C.DevicesSoFar(j, base, t);
    hide C.Partial, Devices.ToLower, Devices.Named, Devices.Top, V.Pick, V.NewName;
    WithDevicesKeepNew(base.devices, j.req.service, n, other);
  }

  lemma WithDevicesKeepNew(base: Devices.Table, service: string, k: nat, other: string)
    requires V.NewName(base, other) && (Devices.ToLower(other) != Devices.ToLower(service) || other == service)
    requires (k > 0 ==> V.Primary(base, service) != "") && (k > 1 ==> V.Journal(base, service) != "")
    ensures V.NewName(V.WithDevices(base, service, k), other)
  {
    hide V.NewName, Devices.ToLower, Devices.Top, V.Pick;
    if k > 0 {
      var p := V.Pick(base, service, "");
      OneKeepsNew(base, p, service, other);
      if k > 1 {
        var t1 := V.WithDevices(base, service, 1);
        OneKeepsNew(t1, V.Pick(t1, service, V.Primary(base, service)), service, other);
      }
    }
  }

  lemma OneKeepsNew(t: Devices.Table, i: nat, service: string, other: string)
    requires V.NewName(t, other) && (Devices.ToLower(other) != Devices.ToLower(service) || other == service) && i < Devices.MAX_DEVICES
    ensures V.NewName(t[V.Dev(i) := service], other)
  {
    hide Devices.ToLower, Devices.DevName;
    assert Devices.Index(Devices.DevName(i)) == i;
  }

  /** A deletion of one service, as far as it got, keeps every other name usable; when it has succeeded, its own is, too. */
  lemma DeletionKeepsNew(t0: Tables, service: string, u: string, t: Tables, other: string)
    requires D.Underway(t0, service, u, t) && Devices.Named(t0.devices)
    requires V.NewName(t0.devices, other) ||
             (u in t0.attrs && service !in t.services
              && forall d :: d in t0.devices && Devices.ToLower(t0.devices[d]) == Devices.ToLower(other) ==> D.OwnDevice(t0, u, d))
    ensures V.NewName(t.devices, other)
  {
    hide Devices.ToLower, Devices.Index, D.Progress, D.OwnDevice;
    if u in t0.attrs {
      DeletedParts(t0, service, u, t);
      if service !in t.services {
        D.SuccessLeavesNothing(t0, service, u, t);
        GoneDevices(t0, service, u, t);
      }
    }
  }

  /** A creation that stopped anywhere and was deleted can be started again. */
  lemma CanBeCreatedAgain(j: C.Job, base: Tables, t0: Tables, t: Tables)
    requires C.NewService(j, base) && C.Partial(j, base, t0) && j.req.service in t0.services
    requires D.Underway(t0, j.req.service, t0.services[j.req.service], t) && j.req.service !in t.services
    ensures C.NewService(j, t)
  {
    assert V.NewName(base.devices, j.req.service);
    CreationKeepsNew(j, base, t0, j.req.service);
    assert Devices.Named(t0.devices) by { hide Devices.ToLower; }
    hide C.Partial, V.NewName, D.Underway, Devices.Named;
    DeletionKeepsNew(t0, j.req.service, t0.services[j.req.service], t, j.req.service);
  }

  /** The devices that a deletion without an attr left are the ones that the next creation of the service uses: it takes no other. */
  lemma LeftDevicesAreUsed(j: C.Job, base: Tables, t: Tables)
    requires C.NewService(j, base) && V.HasDevices(base.devices, j.req.service, C.Wanted(j.req), t.devices)
    ensures V.HasDevices(t.devices, j.req.service, C.Wanted(j.req), t.devices)
    ensures C.VolumesOf(j.req, t.devices) == C.VolumesOf(j.req, base.devices)
  {
    var service, n := j.req.service, C.Wanted(j.req);
    if n > 0 {
      SamePicks(base.devices, service, n, t.devices);
      UsedStay(base.devices, service, n, t.devices);
    }
    hide V.Primary, V.Journal, V.NewName;
  }

  lemma SamePicks(base: Devices.Table, service: string, k: nat, t: Devices.Table)
    requires V.NewName(base, service) && V.HasDevices(base, service, k, t) && 0 < k
    ensures V.Primary(t, service) == V.Primary(base, service)
    ensures k > 1 ==> V.Journal(t, service) == V.Journal(base, service)
  {
    V.StillPicked(base, service, k, 0, t);
    if k > 1 {
      V.StillPicked(base, service, k, 1, t);
      UsedStay(base, service, k, t);
    }
    hide V.Pick, V.NewName, V.Dev, V.HasDevices;
  }

  lemma UsedStay(base: Devices.Table, service: string, k: nat, t: Devices.Table)
    requires V.HasDevices(base, service, k, t) && 0 < k <= 2
    ensures t[V.Primary(base, service) := service] == t
    ensures k == 2 ==> t[V.Journal(base, service) := service] == t
  {
    hide V.Primary, V.Journal;
  }
}
