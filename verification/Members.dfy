/**
 The members of one service (CheckAndCreateServiceMembers and createServiceMember,
 pkg/managesvc/service.go), as one attempt of a creation sees them: any number of earlier attempts may
 have stopped anywhere, but nobody else changes the database meanwhile. The interleavings are in
 MemberRuns.
 */
module Members {
  import opened Text
  import opened NextIP
  import opened Records
  import opened Store
  import opened StaticIPs
  import opened ConfigFiles
  import opened Cloud
  import ConfigFileIDs
  import Vol = Volumes

  const STATELESS := "stateless"
  const DEFAULT_TASK_ID := "defaultTaskID"
  const DEFAULT_CONTAINER_INSTANCE_ID := "defaultContainerInstanceID"
  const DEFAULT_SERVER_INSTANCE_ID := "defaultServerInstanceID"
  const MEMBER_ACTIVE := "ACTIVE"

  /** What the members are made of: their configs, the service's static IP flag and the checksum function. */
  datatype Plan = Plan(
    service: string, serviceConfigs: seq<ConfigFileContent>, replicas: seq<ReplicaConfig>,
    requireStaticIP: bool, md5: string -> string)

  // ---------------------------------------------------------------- config files of the service

  /** Owner 0 is the service, owner i + 1 is member i. */
  function PrefixAt(p: Plan, o: nat): string
    requires o <= |p.replicas|
  {
    if o == 0 then p.service else p.replicas[o - 1].memberName
  }

  function ConfigsAt(p: Plan, o: nat): seq<ConfigFileContent>
    requires o <= |p.replicas|
  {
    if o == 0 then p.serviceConfigs else p.replicas[o - 1].configs
  }

  function IDAt(p: Plan, o: nat, i: nat): string
    requires o <= |p.replicas| && i < |ConfigsAt(p, o)|
  {
    FileID(p.md5, PrefixAt(p, o), ConfigsAt(p, o)[i].fileName)
  }

  /** Member names differ, and no two config files have the same ID. */
  ghost predicate ValidPlan(p: Plan) {
    && (forall i, j :: 0 <= i < j < |p.replicas| ==> p.replicas[i].memberName != p.replicas[j].memberName)
    && (forall o: nat, i: nat, q: nat, j: nat ::
          (o <= |p.replicas| && q <= |p.replicas| && i < |ConfigsAt(p, o)| && j < |ConfigsAt(p, q)| && IDAt(p, o, i) == IDAt(p, q, j))
          ==> o == q && i == j)
  }

  /**
   Names suffice: different names of the service and its members, and file names of one owner with
   different hashes. The hash of a name has no separator.
   */
  lemma NamesMakeValidPlan(p: Plan)
    requires forall o: nat, q: nat :: o < q <= |p.replicas| ==> PrefixAt(p, o) != PrefixAt(p, q)
    requires forall o: nat, i: nat :: o <= |p.replicas| && i < |ConfigsAt(p, o)| ==>
               ConfigFileIDs.SEP !in p.md5(ConfigsAt(p, o)[i].fileName)
    requires forall o: nat, i: nat, j: nat :: o <= |p.replicas| && i < j < |ConfigsAt(p, o)| ==>
               p.md5(ConfigsAt(p, o)[i].fileName) != p.md5(ConfigsAt(p, o)[j].fileName)
    ensures ValidPlan(p)
  {
    hide ConfigFileIDs.GenConfigFileID;
    forall i, j | 0 <= i < j < |p.replicas| ensures p.replicas[i].memberName != p.replicas[j].memberName {
      assert PrefixAt(p, i + 1) != PrefixAt(p, j + 1);
    }
    forall o: nat, i: nat, q: nat, j: nat |
      o <= |p.replicas| && q <= |p.replicas| && i < |ConfigsAt(p, o)| && j < |ConfigsAt(p, q)| && IDAt(p, o, i) == IDAt(p, q, j)
      ensures o == q && i == j
    {
      ConfigFileIDs.IDInjective(PrefixAt(p, o), p.md5(ConfigsAt(p, o)[i].fileName), 0,
                                PrefixAt(p, q), p.md5(ConfigsAt(p, q)[j].fileName), 0);
    }
  }

  /** The file is the i-th initial file of owner o. */
  ghost predicate IsFile(p: Plan, uuid: string, o: nat, i: nat, key: Key, f: ConfigFile) {
    && o <= |p.replicas| && i < |ConfigsAt(p, o)|
    && key == (uuid, IDAt(p, o, i))
    && IsInit(p.md5, uuid, PrefixAt(p, o), ConfigsAt(p, o)[i], f) && f.content == ConfigsAt(p, o)[i].content
  }

  /** An initial file of one of the owners up to number m. */
  ghost predicate Planned(p: Plan, uuid: string, key: Key, f: ConfigFile, m: nat) {
    exists o: nat, i: nat :: o <= m && IsFile(p, uuid, o, i, key, f)
  }

  /** Config files are only added, and those added are initial files of the owners up to number m. */
  ghost predicate FilesOK(p: Plan, uuid: string, before: map<Key, ConfigFile>, files: map<Key, ConfigFile>, m: nat) {
    Grown(before, files) && forall key :: key in files && key !in before ==> Planned(p, uuid, key, files[key], m)
  }

  lemma MoreOwners(p: Plan, uuid: string, before: map<Key, ConfigFile>, files: map<Key, ConfigFile>, m: nat, n: nat)
    requires FilesOK(p, uuid, before, files, m) && m <= n
    ensures FilesOK(p, uuid, before, files, n)
  {
    hide IsFile;
    forall key | key in files && key !in before ensures Planned(p, uuid, key, files[key], n) {
      assert Planned(p, uuid, key, files[key], m);
    }
  }

  ghost predicate NoFiles(uuid: string, files: map<Key, ConfigFile>) { forall key :: key in files ==> key.0 != uuid }

  ghost predicate FilesOf(p: Plan, uuid: string, o: nat, files: map<Key, ConfigFile>) {
    o <= |p.replicas| && Present(p.md5, uuid, PrefixAt(p, o), ConfigsAt(p, o), files)
  }

  lemma SameID(p: Plan, o: nat, i: nat, q: nat, j: nat)
    requires ValidPlan(p) && o <= |p.replicas| && q <= |p.replicas| && i < |ConfigsAt(p, o)| && j < |ConfigsAt(p, q)|
    requires IDAt(p, o, i) == IDAt(p, q, j)
    ensures o == q && i == j
  {
    hide FileID;
  }

  lemma PlannedAreConsistent(p: Plan, uuid: string, before: map<Key, ConfigFile>, files: map<Key, ConfigFile>, m: nat, o: nat)
    requires ValidPlan(p) && FilesOK(p, uuid, before, files, m) && NoFiles(uuid, before) && o <= |p.replicas|
    ensures Consistent(p.md5, uuid, PrefixAt(p, o), ConfigsAt(p, o), files)
  {
    hide FileID, IsInit;
    var cfgs := ConfigsAt(p, o);
    forall i | 0 <= i < |cfgs| && (uuid, IDAt(p, o, i)) in files
      ensures IsInit(p.md5, uuid, PrefixAt(p, o), cfgs[i], files[(uuid, IDAt(p, o, i))])
    {
      var key := (uuid, IDAt(p, o, i));
      assert key !in before;
      assert Planned(p, uuid, key, files[key], m);
      var q: nat, j: nat :| q <= m && IsFile(p, uuid, q, j, key, files[key]);
      SameID(p, o, i, q, j);
    }
  }

  lemma OwnIDsDiffer(p: Plan, o: nat)
    requires ValidPlan(p) && o <= |p.replicas|
    ensures DistinctIDs(p.md5, PrefixAt(p, o), ConfigsAt(p, o))
  {
    var cfgs := ConfigsAt(p, o);
    forall i, j | 0 <= i < j < |cfgs|
      ensures FileID(p.md5, PrefixAt(p, o), cfgs[i].fileName) != FileID(p.md5, PrefixAt(p, o), cfgs[j].fileName)
    {
      if IDAt(p, o, i) == IDAt(p, o, j) { SameID(p, o, i, o, j); }
    }
  }

  lemma StillPlanned(p: Plan, uuid: string, before: map<Key, ConfigFile>, files: map<Key, ConfigFile>,
                     files': map<Key, ConfigFile>, m: nat, o: nat)
    requires FilesOK(p, uuid, before, files, m) && o <= |p.replicas| && o <= m
    requires Grown(files, files') && OnlyOwn(p.md5, uuid, PrefixAt(p, o), ConfigsAt(p, o), files, files')
    requires Consistent(p.md5, uuid, PrefixAt(p, o), ConfigsAt(p, o), files')
    requires NewContents(p.md5, uuid, PrefixAt(p, o), ConfigsAt(p, o), files, files')
    ensures FilesOK(p, uuid, before, files', m)
  {
    hide FileID, IsInit;
    forall key | key in files' && key !in before ensures Planned(p, uuid, key, files'[key], m) {
      if key in files {
        assert Planned(p, uuid, key, files[key], m);
      } else {
        assert IsKey(p.md5, uuid, PrefixAt(p, o), ConfigsAt(p, o), key);
        var i: nat :| i < |ConfigsAt(p, o)| && key == (uuid, FileID(p.md5, PrefixAt(p, o), ConfigsAt(p, o)[i].fileName));
        assert IsFile(p, uuid, o, i, key, files'[key]);
      }
    }
  }

  lemma GrownTwice(a: map<Key, ConfigFile>, b: map<Key, ConfigFile>, c: map<Key, ConfigFile>)
    ensures Grown(a, a)
    ensures Grown(a, b) && Grown(b, c) ==> Grown(a, c)
  {
  }

  lemma FilesStay(p: Plan, uuid: string, o: nat, files: map<Key, ConfigFile>, files': map<Key, ConfigFile>)
    requires FilesOf(p, uuid, o, files) && Grown(files, files')
    ensures FilesOf(p, uuid, o, files')
  {
    hide FileID, IsInit;
  }

  /**
   The files of one owner are made, or as many as the attempt gets to; no file of another owner changes.
   In a new service (`isNew`), whose files are all from attempts at this plan, none is ever deleted.
   */
  method CreateFilesOf(db: DB, ghost p: Plan, md5: string -> string, uuid: string, ghost o: nat, prefix: string,
                       cfgs: seq<ConfigFileContent>, ghost isNew: bool, ghost before: map<Key, ConfigFile>, ghost m: nat)
    returns (r: Option<seq<ConfigID>>)
    requires db.Valid() && ValidPlan(p) && o <= |p.replicas| && o <= m
    requires isNew ==> NoFiles(uuid, before) && FilesOK(p, uuid, before, db.cfgMap, m)
    requires md5 == p.md5 && prefix == PrefixAt(p, o) && cfgs == ConfigsAt(p, o)
    modifies db
    ensures db.Valid() && db.Contents() == old(db.Contents()).(configs := db.cfgMap)
    ensures OnlyOwn(md5, uuid, prefix, cfgs, old(db.cfgMap), db.cfgMap)
    ensures isNew ==> Grown(old(db.cfgMap), db.cfgMap) && FilesOK(p, uuid, before, db.cfgMap, m)
    ensures r.Some? ==> r.value == IDsOf(md5, prefix, cfgs) && FilesOf(p, uuid, o, db.cfgMap)
    ensures FilesOf(p, uuid, o, old(db.cfgMap)) ==> db.cfgMap == old(db.cfgMap)
    ensures NewContents(md5, uuid, prefix, cfgs, old(db.cfgMap), db.cfgMap)
    ensures Hashed(md5, old(db.cfgMap)) ==> Hashed(md5, db.cfgMap)
    ensures db.reliable ==> r.Some?
  {
    hide Consistent, Present, OnlyOwn, Grown, FilesOK, ValidPlan, DistinctIDs, NoFiles, NewContents, Hashed;
    ghost var files := db.cfgMap;
    OwnIDsDiffer(p, o);
    if isNew { PlannedAreConsistent(p, uuid, before, files, m, o); }
    r := CheckAndCreateConfigFile(db, md5, uuid, prefix, cfgs);
    if isNew { StillPlanned(p, uuid, before, files, db.cfgMap, m, o); }
    if FilesOf(p, uuid, o, files) {
      assert Consistent(md5, uuid, prefix, cfgs, files) by { PresentIsConsistent(md5, uuid, prefix, cfgs, files); }
      NothingNew(md5, uuid, prefix, cfgs, files, db.cfgMap);
    }
  }

  lemma PresentIsConsistent(md5: string -> string, uuid: string, prefix: string, cfgs: seq<ConfigFileContent>, files: map<Key, ConfigFile>)
    requires Present(md5, uuid, prefix, cfgs, files)
    ensures Consistent(md5, uuid, prefix, cfgs, files)
  {
    hide FileID, IsInit;
  }

  lemma NothingNew(md5: string -> string, uuid: string, prefix: string, cfgs: seq<ConfigFileContent>,
                   files: map<Key, ConfigFile>, files': map<Key, ConfigFile>)
    requires Present(md5, uuid, prefix, cfgs, files) && Grown(files, files') && OnlyOwn(md5, uuid, prefix, cfgs, files, files')
    ensures files' == files
  {
    hide FileID, IsInit;
    forall key ensures IsKey(md5, uuid, prefix, cfgs, key) ==> key in files {}
  }

  // ---------------------------------------------------------------- members

  /** A member has volumes for exactly the devices of its service. */
  predicate VolumesFit(sv: ServiceVolumes, v: MemberVolumes) {
    && v.primaryDeviceName == sv.primaryDeviceName && (v.primaryVolumeID == "" <==> sv.primaryDeviceName == "")
    && v.journalDeviceName == sv.journalDeviceName && (v.journalVolumeID == "" <==> sv.journalDeviceName == "")
  }

  /** The member made for config i; volumes, address and time are the attempt's. */
  function MemberFor(p: Plan, uuid: string, i: nat, vols: MemberVolumes, ip: IP, now: int): ServiceMember
    requires i < |p.replicas|
  {
    var c := p.replicas[i];
    ServiceMember(uuid, c.memberName, 0, MemberMeta(now, MEMBER_ACTIVE),
                  MemberSpec(c.zone, DEFAULT_TASK_ID, DEFAULT_CONTAINER_INSTANCE_ID, DEFAULT_SERVER_INSTANCE_ID,
                             vols, ip, IDsOf(p.md5, c.memberName, c.configs)))
  }

  ghost predicate IsMember(p: Plan, uuid: string, sv: ServiceVolumes, i: nat, m: ServiceMember) {
    && i < |p.replicas| && m == MemberFor(p, uuid, i, m.spec.volumes, m.spec.staticIP, m.meta.lastModified)
    && VolumesFit(sv, m.spec.volumes)
  }

  function MemberKey(p: Plan, uuid: string, i: nat): Key
    requires i < |p.replicas|
  {
    (uuid, p.replicas[i].memberName)
  }

  /** The service has the members of the first k configs; the other services' members are as before. */
  ghost predicate MembersOK(p: Plan, uuid: string, sv: ServiceVolumes, before: map<Key, ServiceMember>,
                            ms: map<Key, ServiceMember>, k: nat) {
    && k <= |p.replicas|
    && (forall key :: key in before ==> key in ms && ms[key] == before[key])
    && (forall i :: 0 <= i < k ==> MemberKey(p, uuid, i) in ms && IsMember(p, uuid, sv, i, ms[MemberKey(p, uuid, i)]))
    && (forall key :: key in ms && key !in before ==> exists i :: 0 <= i < k && key == MemberKey(p, uuid, i))
  }

  function IPOf(p: Plan, uuid: string, ms: map<Key, ServiceMember>, i: nat): IP
    requires i < |p.replicas| && MemberKey(p, uuid, i) in ms
  {
    ms[MemberKey(p, uuid, i)].spec.staticIP
  }

  /** Members of a service with static IPs have different ones, recorded for the service; others have the default. */
  ghost predicate IPsOK(p: Plan, uuid: string, ms: map<Key, ServiceMember>, ips: map<IP, ServiceStaticIP>, k: nat) {
    && k <= |p.replicas|
    && (forall i :: 0 <= i < k ==> MemberKey(p, uuid, i) in ms)
    && (p.requireStaticIP ==>
          && (forall i :: 0 <= i < k ==> IPOf(p, uuid, ms, i) in ips && ips[IPOf(p, uuid, ms, i)].serviceUUID == uuid)
          && (forall i, j :: 0 <= i < j < k ==> IPOf(p, uuid, ms, i) != IPOf(p, uuid, ms, j)))
    && (!p.requireStaticIP ==> forall i :: 0 <= i < k ==> IPOf(p, uuid, ms, i) == DEFAULT_HOST_IP)
  }

  /** The members of the service are those of the first k configs: name, zone and devices tell, whatever has been updated since. */
  ghost predicate MembersOf(p: Plan, uuid: string, sv: ServiceVolumes, ms: map<Key, ServiceMember>, k: nat) {
    && k <= |p.replicas|
    && (forall i :: 0 <= i < k ==>
          && MemberKey(p, uuid, i) in ms && ms[MemberKey(p, uuid, i)].spec.availableZone == p.replicas[i].zone
          && VolumesFit(sv, ms[MemberKey(p, uuid, i)].spec.volumes))
    && (forall n :: (uuid, n) in ms ==> exists i :: 0 <= i < k && n == p.replicas[i].memberName)
  }

  /** The references of owner o, of which 0 is the service. */
  function RefsAt(p: Plan, uuid: string, refs: seq<ConfigID>, ms: map<Key, ServiceMember>, o: nat): seq<ConfigID>
    requires o <= |p.replicas| && (o > 0 ==> MemberKey(p, uuid, o - 1) in ms)
  {
    if o == 0 then refs else ms[MemberKey(p, uuid, o - 1)].spec.configs
  }

  /** What the service and its first k members refer to is stored, and is not an initial file of a later member. */
  ghost predicate RefsOK(p: Plan, uuid: string, refs: seq<ConfigID>, ms: map<Key, ServiceMember>, files: map<Key, ConfigFile>, k: nat) {
    && k <= |p.replicas| && (forall i :: 0 <= i < k ==> MemberKey(p, uuid, i) in ms)
    && (forall o: nat :: o <= k ==> AllStored(uuid, RefsAt(p, uuid, refs, ms, o), files))
    && (forall o: nat :: o <= k ==> NotLater(p, k, RefsAt(p, uuid, refs, ms, o)))
  }

  ghost predicate NotLater(p: Plan, k: nat, configs: seq<ConfigID>) {
    forall a, q: nat, j: nat :: 0 <= a < |configs| && k < q <= |p.replicas| && j < |ConfigsAt(p, q)| ==>
      configs[a].fileID != IDAt(p, q, j)
  }

  /**
   A service whose first k configs have their members: made by attempts at a creation, or running, with
   owners and config files updated since.
   */
  ghost predicate HasMembers(p: Plan, uuid: string, sv: ServiceVolumes, refs: seq<ConfigID>, t: Tables, k: nat) {
    && MembersOf(p, uuid, sv, t.members, k) && IPsOK(p, uuid, t.members, t.ips, k) && WellKeyed(t.ips)
    && RefsOK(p, uuid, refs, t.members, t.configs, k)
  }

  /** What the attempts so far have done to the members, their files and the IP records. */
  ghost predicate Made(p: Plan, uuid: string, sv: ServiceVolumes, before: Tables, t: Tables, k: nat) {
    && MembersOK(p, uuid, sv, before.members, t.members, k)
    && IPsOK(p, uuid, t.members, t.ips, k)
    && FilesOK(p, uuid, before.configs, t.configs, k + 1)
    && (forall o :: 0 < o <= k ==> FilesOf(p, uuid, o, t.configs))
    && IPsAdded(before.ips, t.ips, uuid) && WellKeyed(t.ips)
    && (!p.requireStaticIP ==> t.ips == before.ips)
  }

  /** Nothing of the service is there before the first attempt. */
  ghost predicate Unused(uuid: string, before: Tables) {
    && NoMembers(uuid, before.members) && NoFiles(uuid, before.configs)
    && WellKeyed(before.ips) && forall ip :: ip in before.ips ==> before.ips[ip].serviceUUID != uuid
  }

  lemma MembersGrow(p: Plan, uuid: string, sv: ServiceVolumes, before: map<Key, ServiceMember>,
                    ms: map<Key, ServiceMember>, k: nat, m: ServiceMember)
    requires ValidPlan(p) && MembersOK(p, uuid, sv, before, ms, k) && k < |p.replicas| && IsMember(p, uuid, sv, k, m)
    requires NoMembers(uuid, before)
    ensures MemberKey(p, uuid, k) !in ms && MembersOK(p, uuid, sv, before, ms[MemberKey(p, uuid, k) := m], k + 1)
  {
    hide IsMember;
    var ms' := ms[MemberKey(p, uuid, k) := m];
    forall key | key in ms' && key !in before ensures exists i :: 0 <= i < k + 1 && key == MemberKey(p, uuid, i) {
      if key == MemberKey(p, uuid, k) {
        assert 0 <= k < k + 1;
      } else {
        var i :| 0 <= i < k && key == MemberKey(p, uuid, i);
      }
    }
  }

  lemma IPsGrow(p: Plan, uuid: string, ms: map<Key, ServiceMember>, ips: map<IP, ServiceStaticIP>, k: nat, m: ServiceMember)
    requires ValidPlan(p) && IPsOK(p, uuid, ms, ips, k) && k < |p.replicas|
    requires p.requireStaticIP ==> m.spec.staticIP in ips && ips[m.spec.staticIP].serviceUUID == uuid
    requires p.requireStaticIP ==> forall i :: 0 <= i < k ==> IPOf(p, uuid, ms, i) != m.spec.staticIP
    requires !p.requireStaticIP ==> m.spec.staticIP == DEFAULT_HOST_IP
    ensures IPsOK(p, uuid, ms[MemberKey(p, uuid, k) := m], ips, k + 1)
  {
    var ms' := ms[MemberKey(p, uuid, k) := m];
    assert forall i :: 0 <= i < k ==> MemberKey(p, uuid, i) != MemberKey(p, uuid, k);
    assert forall i :: 0 <= i < k ==> IPOf(p, uuid, ms', i) == IPOf(p, uuid, ms, i);
  }

  lemma MembersOfGrow(p: Plan, uuid: string, sv: ServiceVolumes, ms: map<Key, ServiceMember>, k: nat, m: ServiceMember)
    requires ValidPlan(p) && MembersOf(p, uuid, sv, ms, k) && k < |p.replicas| && IsMember(p, uuid, sv, k, m)
    ensures MemberKey(p, uuid, k) !in ms && MembersOf(p, uuid, sv, ms[MemberKey(p, uuid, k) := m], k + 1)
  {
    hide VolumesFit;
    var ms' := ms[MemberKey(p, uuid, k) := m];
    forall n | (uuid, n) in ms' ensures exists i :: 0 <= i < k + 1 && n == p.replicas[i].memberName {
      if n == p.replicas[k].memberName {
        assert 0 <= k < k + 1;
      } else {
        var i :| 0 <= i < k && n == p.replicas[i].memberName;
      }
    }
  }

  /** The initial files of one later member may change: nothing refers to them yet. */
  lemma RefsOfOthers(p: Plan, uuid: string, refs: seq<ConfigID>, ms: map<Key, ServiceMember>, files: map<Key, ConfigFile>,
                     files': map<Key, ConfigFile>, k: nat)
    requires RefsOK(p, uuid, refs, ms, files, k) && k < |p.replicas|
    requires OnlyOwn(p.md5, uuid, PrefixAt(p, k + 1), ConfigsAt(p, k + 1), files, files')
    ensures RefsOK(p, uuid, refs, ms, files', k)
  {
    hide FileID;
    forall o: nat | o <= k ensures AllStored(uuid, RefsAt(p, uuid, refs, ms, o), files') {
      var configs := RefsAt(p, uuid, refs, ms, o);
      assert AllStored(uuid, configs, files) && NotLater(p, k, configs);
      forall a | 0 <= a < |configs| ensures Stored(uuid, configs[a], files') {
        assert Stored(uuid, configs[a], files);
        OtherKey(p, uuid, k, configs, a);
      }
    }
  }

  lemma OtherKey(p: Plan, uuid: string, k: nat, configs: seq<ConfigID>, a: nat)
    requires k < |p.replicas| && NotLater(p, k, configs) && a < |configs|
    ensures !IsKey(p.md5, uuid, PrefixAt(p, k + 1), ConfigsAt(p, k + 1), (uuid, configs[a].fileID))
  {
    hide FileID;
    var cfgs := ConfigsAt(p, k + 1);
    forall j: nat | j < |cfgs| ensures FileID(p.md5, PrefixAt(p, k + 1), cfgs[j].fileName) != configs[a].fileID {
      assert IDAt(p, k + 1, j) != configs[a].fileID;
    }
  }

  lemma InitialIsNotLater(p: Plan, k: nat, o: nat)
    requires ValidPlan(p) && o <= k <= |p.replicas|
    ensures NotLater(p, k, IDsOf(p.md5, PrefixAt(p, o), ConfigsAt(p, o)))
  {
    hide FileID;
    var configs := IDsOf(p.md5, PrefixAt(p, o), ConfigsAt(p, o));
    forall a: nat, q: nat, j: nat | a < |configs| && k < q <= |p.replicas| && j < |ConfigsAt(p, q)|
      ensures configs[a].fileID != IDAt(p, q, j)
    {
      assert configs[a].fileID == IDAt(p, o, a);
    }
  }

  lemma RefsGrow(p: Plan, uuid: string, sv: ServiceVolumes, refs: seq<ConfigID>, ms: map<Key, ServiceMember>,
                 files: map<Key, ConfigFile>, k: nat, m: ServiceMember)
    requires ValidPlan(p) && RefsOK(p, uuid, refs, ms, files, k) && k < |p.replicas| && IsMember(p, uuid, sv, k, m)
    requires FilesOf(p, uuid, k + 1, files)
    ensures RefsOK(p, uuid, refs, ms[MemberKey(p, uuid, k) := m], files, k + 1)
  {
    var ms' := ms[MemberKey(p, uuid, k) := m];
    var c := p.replicas[k];
    PresentIsStored(p.md5, uuid, c.memberName, c.configs, files);
    InitialIsNotLater(p, k + 1, k + 1);
    assert m.spec.configs == IDsOf(p.md5, c.memberName, c.configs);
    assert forall i :: 0 <= i < k ==> MemberKey(p, uuid, i) != MemberKey(p, uuid, k);
    hide FileID, IsMember, FilesOf, ValidPlan, IDsOf, AllStored;
    forall o: nat | o <= k + 1
      ensures AllStored(uuid, RefsAt(p, uuid, refs, ms', o), files) && NotLater(p, k + 1, RefsAt(p, uuid, refs, ms', o))
    {
      if o <= k {
        assert RefsAt(p, uuid, refs, ms', o) == RefsAt(p, uuid, refs, ms, o);
        assert NotLater(p, k, RefsAt(p, uuid, refs, ms, o));
      }
    }
  }

  /** One more member joins. */
  lemma OneMore(p: Plan, uuid: string, sv: ServiceVolumes, refs: seq<ConfigID>, t: Tables, k: nat, m: ServiceMember)
    requires ValidPlan(p) && HasMembers(p, uuid, sv, refs, t, k) && k < |p.replicas|
    requires IsMember(p, uuid, sv, k, m) && FilesOf(p, uuid, k + 1, t.configs)
    requires p.requireStaticIP ==> m.spec.staticIP in t.ips && t.ips[m.spec.staticIP].serviceUUID == uuid
    requires p.requireStaticIP ==> NotHeld(p, uuid, t.members, k, m.spec.staticIP)
    requires !p.requireStaticIP ==> m.spec.staticIP == DEFAULT_HOST_IP
    ensures MemberKey(p, uuid, k) !in t.members
    ensures HasMembers(p, uuid, sv, refs, t.(members := t.members[MemberKey(p, uuid, k) := m]), k + 1)
  {
    hide MembersOf, IPsOK, FilesOf, IsMember, WellKeyed, ValidPlan, RefsOK, IPOf;
    MembersThere(p, uuid, t.members, t.ips, k);
    MembersOfGrow(p, uuid, sv, t.members, k, m);
    IPsGrow(p, uuid, t.members, t.ips, k, m);
    RefsGrow(p, uuid, sv, refs, t.members, t.configs, k, m);
  }

  /** What attempts at a creation have made is a case of it. */
  lemma MadeHasMembers(p: Plan, uuid: string, sv: ServiceVolumes, before: Tables, t: Tables, k: nat)
    requires ValidPlan(p) && Unused(uuid, before) && Made(p, uuid, sv, before, t, k) && FilesOf(p, uuid, 0, t.configs)
    ensures HasMembers(p, uuid, sv, IDsOf(p.md5, p.service, p.serviceConfigs), t, k)
  {
    hide FilesOK, FilesOf, IPsAdded, ValidPlan, NoFiles, IDsOf, IPsOK, WellKeyed, MembersOK, MembersOf, RefsOK, NoMembers;
    MadeMembers(p, uuid, sv, before.members, t.members, k);
    MadeRefs(p, uuid, sv, before.members, t.members, t.configs, k);
  }

  lemma MadeMembers(p: Plan, uuid: string, sv: ServiceVolumes, before: map<Key, ServiceMember>, ms: map<Key, ServiceMember>, k: nat)
    requires NoMembers(uuid, before) && MembersOK(p, uuid, sv, before, ms, k)
    ensures MembersOf(p, uuid, sv, ms, k)
  {
    hide VolumesFit, IDsOf;
    forall n | (uuid, n) in ms ensures exists i :: 0 <= i < k && n == p.replicas[i].memberName {
      assert (uuid, n) !in before;
      var i :| 0 <= i < k && (uuid, n) == MemberKey(p, uuid, i);
    }
  }

  lemma MadeRefs(p: Plan, uuid: string, sv: ServiceVolumes, before: map<Key, ServiceMember>, ms: map<Key, ServiceMember>,
                 files: map<Key, ConfigFile>, k: nat)
    requires ValidPlan(p) && MembersOK(p, uuid, sv, before, ms, k) && forall o: nat :: o <= k ==> FilesOf(p, uuid, o, files)
    ensures RefsOK(p, uuid, IDsOf(p.md5, p.service, p.serviceConfigs), ms, files, k)
  {
    hide FilesOf, ValidPlan, FileID, IDsOf, VolumesFit, AllStored, NotLater;
    var refs := IDsOf(p.md5, p.service, p.serviceConfigs);
    forall o: nat | o <= k
      ensures AllStored(uuid, RefsAt(p, uuid, refs, ms, o), files) && NotLater(p, k, RefsAt(p, uuid, refs, ms, o))
    {
      if o > 0 { assert IsMember(p, uuid, sv, o - 1, ms[MemberKey(p, uuid, o - 1)]); }
      assert RefsAt(p, uuid, refs, ms, o) == IDsOf(p.md5, PrefixAt(p, o), ConfigsAt(p, o));
      InitialIsNotLater(p, k, o);
      OwnerStored(p, uuid, o, files);
    }
  }

  lemma OwnerStored(p: Plan, uuid: string, o: nat, files: map<Key, ConfigFile>)
    requires FilesOf(p, uuid, o, files)
    ensures AllStored(uuid, IDsOf(p.md5, PrefixAt(p, o), ConfigsAt(p, o)), files)
  {
    PresentIsStored(p.md5, uuid, PrefixAt(p, o), ConfigsAt(p, o), files);
  }

  /** One more member joins what is made. */
  lemma OneMade(p: Plan, uuid: string, sv: ServiceVolumes, before: Tables, t: Tables, k: nat, m: ServiceMember)
    requires ValidPlan(p) && Unused(uuid, before) && Made(p, uuid, sv, before, t, k) && k < |p.replicas|
    requires IsMember(p, uuid, sv, k, m) && FilesOf(p, uuid, k + 1, t.configs)
    requires p.requireStaticIP ==> m.spec.staticIP in t.ips && t.ips[m.spec.staticIP].serviceUUID == uuid
    requires p.requireStaticIP ==> NotHeld(p, uuid, t.members, k, m.spec.staticIP)
    requires !p.requireStaticIP ==> m.spec.staticIP == DEFAULT_HOST_IP
    ensures MemberKey(p, uuid, k) !in t.members
    ensures Made(p, uuid, sv, before, t.(members := t.members[MemberKey(p, uuid, k) := m]), k + 1)
  {
    hide MembersOK, IPsOK, FilesOK, FilesOf, IPsAdded, IsMember, WellKeyed, NoFiles, NoMembers, ValidPlan, IPOf;
    assert forall i :: 0 <= i < k ==> MemberKey(p, uuid, i) in t.members by { MembersThere(p, uuid, t.members, t.ips, k); }
    MembersGrow(p, uuid, sv, before.members, t.members, k, m);
    MoreOwners(p, uuid, before.configs, t.configs, k + 1, k + 2);
    IPsGrow(p, uuid, t.members, t.ips, k, m);
  }

  lemma MembersThere(p: Plan, uuid: string, ms: map<Key, ServiceMember>, ips: map<IP, ServiceStaticIP>, k: nat)
    requires IPsOK(p, uuid, ms, ips, k)
    ensures forall i :: 0 <= i < k ==> MemberKey(p, uuid, i) in ms
  {
  }

  lemma MadeElsewhere(p: Plan, uuid: string, sv: ServiceVolumes, before: Tables, t: Tables, t': Tables, k: nat)
    requires Made(p, uuid, sv, before, t, k) && t'.members == t.members && t'.configs == t.configs && t'.ips == t.ips
    ensures Made(p, uuid, sv, before, t', k)
  {
    hide MembersOK, IPsOK, FilesOK, IPsAdded, FilesOf;
  }

  lemma FilesMade(p: Plan, uuid: string, sv: ServiceVolumes, before: Tables, t: Tables, k: nat, files: map<Key, ConfigFile>)
    requires Made(p, uuid, sv, before, t, k) && Grown(t.configs, files) && FilesOK(p, uuid, before.configs, files, k + 1)
    ensures Made(p, uuid, sv, before, t.(configs := files), k)
  {
    hide MembersOK, IPsOK, FilesOK, IPsAdded, FilesOf;
    forall o | 0 < o <= k ensures FilesOf(p, uuid, o, files) { FilesStay(p, uuid, o, t.configs, files); }
  }

  lemma IPsMade(p: Plan, uuid: string, sv: ServiceVolumes, before: Tables, t: Tables, k: nat, ips: map<IP, ServiceStaticIP>)
    requires Made(p, uuid, sv, before, t, k) && IPsAdded(t.ips, ips, uuid) && WellKeyed(ips) && p.requireStaticIP
    ensures Made(p, uuid, sv, before, t.(ips := ips), k)
  {
    hide MembersOK, FilesOK, FilesOf;
    AddedTwice(before.ips, t.ips, ips, uuid);
  }

  // ---------------------------------------------------------------- what a listing tells

  function NamesInZone(names: seq<string>, zones: seq<string>, z: string): set<string>
    requires |names| == |zones|
  {
    set i | 0 <= i < |names| && zones[i] == z :: names[i]
  }

  lemma NamesInZoneNext(names: seq<string>, zones: seq<string>, z: string)
    requires |names| == |zones| > 0 && forall i, j :: 0 <= i < j < |names| ==> names[i] != names[j]
    ensures var n := |names| - 1;
            var smaller := NamesInZone(names[..n], zones[..n], z);
            names[n] !in smaller && NamesInZone(names, zones, z) == if zones[n] == z then smaller + {names[n]} else smaller
  {
  }

  lemma {:induction false} CountIsSize(names: seq<string>, zones: seq<string>, z: string)
    requires |names| == |zones| && forall i, j :: 0 <= i < j < |names| ==> names[i] != names[j]
    ensures Count(zones, z) == |NamesInZone(names, zones, z)|
  {
    if names != [] {
      NamesInZoneNext(names, zones, z);
      CountIsSize(names[..|names| - 1], zones[..|names| - 1], z);
      hide NamesInZone;
    } else {
      assert NamesInZone(names, zones, z) == {};
    }
  }

  lemma {:induction false} SizeOfNames(names: seq<string>)
    requires forall i, j :: 0 <= i < j < |names| ==> names[i] != names[j]
    ensures |set n | n in names| == |names|
  {
    if names != [] {
      var n := |names| - 1;
      SizeOfNames(names[..n]);
      assert (set x | x in names) == (set x | x in names[..n]) + {names[n]};
    }
  }

  function NamesOf(ms: seq<ServiceMember>): (names: seq<string>)
    ensures |names| == |ms|
  {
    seq(|ms|, i requires 0 <= i < |ms| => ms[i].memberName)
  }

  function ConfigNames(c: seq<ReplicaConfig>): (names: seq<string>)
    ensures |names| == |c|
  {
    seq(|c|, i requires 0 <= i < |c| => c[i].memberName)
  }

  /** A listed member is that of one of the first k configs. */
  lemma ListedHasIndex(p: Plan, uuid: string, sv: ServiceVolumes, members: map<Key, ServiceMember>,
                       k: nat, ms: seq<ServiceMember>, a: nat) returns (i: nat)
    requires MembersOf(p, uuid, sv, members, k) && ListsMembers(members, uuid, ms) && a < |ms|
    ensures i < k && MemberKey(p, uuid, i) in members && ms[a] == members[MemberKey(p, uuid, i)]
    ensures ms[a].memberName == p.replicas[i].memberName && ms[a].spec.availableZone == p.replicas[i].zone
  {
    hide VolumesFit;
    assert (uuid, ms[a].memberName) in members;
    var j :| 0 <= j < k && ms[a].memberName == p.replicas[j].memberName;
    i := j;
  }

  /** The member of each of the first k configs is listed. */
  lemma IndexIsListed(p: Plan, uuid: string, sv: ServiceVolumes, members: map<Key, ServiceMember>,
                      k: nat, ms: seq<ServiceMember>, i: nat) returns (a: nat)
    requires MembersOf(p, uuid, sv, members, k) && ListsMembers(members, uuid, ms) && i < k
    ensures a < |ms| && ms[a].memberName == p.replicas[i].memberName
  {
    hide VolumesFit;
    assert MemberKey(p, uuid, i) in members;
    assert Listed(ms, p.replicas[i].memberName);
    var j :| 0 <= j < |ms| && ms[j].memberName == p.replicas[i].memberName;
    a := j;
  }

  lemma NamesListed(p: Plan, uuid: string, sv: ServiceVolumes, members: map<Key, ServiceMember>,
                    k: nat, ms: seq<ServiceMember>)
    requires MembersOf(p, uuid, sv, members, k) && ListsMembers(members, uuid, ms)
    ensures k <= |p.replicas| && (set n | n in NamesOf(ms)) == (set n | n in ConfigNames(p.replicas)[..k])
  {
    assert k <= |p.replicas|;
    hide MembersOf, ListsMembers;
    var names, firsts := NamesOf(ms), ConfigNames(p.replicas)[..k];
    forall n | n in names ensures n in firsts {
      var a :| 0 <= a < |ms| && names[a] == n;
      var i := ListedHasIndex(p, uuid, sv, members, k, ms, a);
      assert firsts[i] == n;
    }
    forall n | n in firsts ensures n in names {
      var i :| 0 <= i < k && firsts[i] == n;
      var a := IndexIsListed(p, uuid, sv, members, k, ms, i);
      assert names[a] == n;
    }
  }

  lemma ListingSize(p: Plan, uuid: string, sv: ServiceVolumes, members: map<Key, ServiceMember>,
                    k: nat, ms: seq<ServiceMember>)
    requires ValidPlan(p) && MembersOf(p, uuid, sv, members, k) && ListsMembers(members, uuid, ms)
    ensures |ms| == k
  {
    NamesListed(p, uuid, sv, members, k, ms);
    hide MembersOf, MemberKey;
    SizeOfNames(NamesOf(ms));
    SizeOfNames(ConfigNames(p.replicas)[..k]);
  }

  lemma SameNamesInZone(p: Plan, uuid: string, sv: ServiceVolumes, members: map<Key, ServiceMember>,
                        k: nat, ms: seq<ServiceMember>, z: string)
    requires ValidPlan(p) && MembersOf(p, uuid, sv, members, k) && ListsMembers(members, uuid, ms)
    ensures k <= |p.replicas|
    ensures NamesInZone(NamesOf(ms), MemberZones(ms), z) == NamesInZone(ConfigNames(p.replicas)[..k], ConfigZones(p.replicas)[..k], z)
  {
    assert k <= |p.replicas|;
    hide MembersOf, ValidPlan, ListsMembers;
    var names, firsts := NamesOf(ms), ConfigNames(p.replicas)[..k];
    var zones, places := MemberZones(ms), ConfigZones(p.replicas)[..k];
    forall n | n in NamesInZone(names, zones, z) ensures n in NamesInZone(firsts, places, z) {
      var a :| 0 <= a < |names| && zones[a] == z && names[a] == n;
      var i := ListedHasIndex(p, uuid, sv, members, k, ms, a);
      assert firsts[i] == n && places[i] == z;
    }
    forall n | n in NamesInZone(firsts, places, z) ensures n in NamesInZone(names, zones, z) {
      var i :| 0 <= i < |firsts| && places[i] == z && firsts[i] == n;
      ConfigInZone(p, uuid, sv, members, k, ms, i);
    }
  }

  /** In each zone there are as many listed members as configs among the first k. */
  lemma ListingZones(p: Plan, uuid: string, sv: ServiceVolumes, members: map<Key, ServiceMember>,
                     k: nat, ms: seq<ServiceMember>, z: string)
    requires ValidPlan(p) && MembersOf(p, uuid, sv, members, k) && ListsMembers(members, uuid, ms)
    ensures k <= |p.replicas| && Count(MemberZones(ms), z) == Count(ConfigZones(p.replicas)[..k], z)
  {
    SameNamesInZone(p, uuid, sv, members, k, ms, z);
    hide MembersOf, MemberKey, NamesInZone, Count;
    CountIsSize(NamesOf(ms), MemberZones(ms), z);
    CountIsSize(ConfigNames(p.replicas)[..k], ConfigZones(p.replicas)[..k], z);
  }

  lemma ConfigInZone(p: Plan, uuid: string, sv: ServiceVolumes, members: map<Key, ServiceMember>,
                     k: nat, ms: seq<ServiceMember>, i: nat)
    requires ValidPlan(p) && MembersOf(p, uuid, sv, members, k) && ListsMembers(members, uuid, ms)
    requires i < k
    ensures i < |p.replicas| && p.replicas[i].memberName in NamesInZone(NamesOf(ms), MemberZones(ms), p.replicas[i].zone)
  {
    assert k <= |p.replicas|;
    hide MembersOf;
    var a := IndexIsListed(p, uuid, sv, members, k, ms, i);
    var j := ListedHasIndex(p, uuid, sv, members, k, ms, a);
    assert j == i;
    assert NamesOf(ms)[a] == p.replicas[i].memberName && MemberZones(ms)[a] == p.replicas[i].zone;
  }

  // ---------------------------------------------------------------- the pools of addresses

  type Pools = map<string, seq<ServiceStaticIP>>

  predicate InPools(pools: Pools, z: string, a: nat, ip: IP) {
    z in pools && a < |pools[z]| && pools[z][a].staticIP == ip
  }

  /** The first address of the zone is taken. */
  function Pop(pools: Pools, z: string): Pools
    requires z in pools && pools[z] != []
  {
    pools[z := pools[z][1..]]
  }

  /** No address is in the pools twice. */
  ghost predicate Different(pools: Pools) {
    forall y, a: nat, z, b: nat, ip :: InPools(pools, y, a, ip) && InPools(pools, z, b, ip) ==> y == z && a == b
  }

  /** None of the first k members has the address. */
  ghost predicate NotHeld(p: Plan, uuid: string, ms: map<Key, ServiceMember>, k: nat, ip: IP) {
    && k <= |p.replicas|
    && forall i :: 0 <= i < k ==> MemberKey(p, uuid, i) in ms && IPOf(p, uuid, ms, i) != ip
  }

  /** The addresses are recorded for the service and none of the first k members has them. */
  ghost predicate Free(p: Plan, uuid: string, ms: map<Key, ServiceMember>, ips: map<IP, ServiceStaticIP>, k: nat, pools: Pools)
    requires k <= |p.replicas| && forall i :: 0 <= i < k ==> MemberKey(p, uuid, i) in ms
  {
    forall z, a: nat, ip :: InPools(pools, z, a, ip) ==>
      ip in ips && ips[ip].serviceUUID == uuid && forall i :: 0 <= i < k ==> IPOf(p, uuid, ms, i) != ip
  }

  /** Every zone has an address for each of its configs after the first k. */
  ghost predicate Enough(p: Plan, k: nat, pools: Pools)
    requires k <= |p.replicas|
  {
    && (forall z :: z in ConfigZones(p.replicas) ==> z in pools)
    && (forall z :: z in pools ==> |pools[z]| >= Count(ConfigZones(p.replicas), z) - Count(ConfigZones(p.replicas)[..k], z))
  }

  ghost predicate PoolsLeft(p: Plan, uuid: string, ms: map<Key, ServiceMember>, ips: map<IP, ServiceStaticIP>, k: nat, pools: Pools) {
    && k <= |p.replicas| && (forall i :: 0 <= i < k ==> MemberKey(p, uuid, i) in ms)
    && Different(pools) && Free(p, uuid, ms, ips, k, pools) && Enough(p, k, pools)
  }

  lemma {:induction false} CountOfPrefix(s: seq<string>, i: nat, z: string)
    requires i <= |s|
    ensures Count(s[..i], z) <= Count(s, z)
    decreases |s|
  {
    if i < |s| {
      var n := |s| - 1;
      assert s[..n][..i] == s[..i];
      CountOfPrefix(s[..n], i, z);
    } else {
      assert s[..i] == s;
    }
  }

  /** The next config's zone has an address left, and after taking it every zone still has enough. */
  lemma StillEnough(p: Plan, k: nat, pools: Pools)
    requires k < |p.replicas| && Enough(p, k, pools)
    ensures var z := p.replicas[k].zone; z in pools && pools[z] != [] && Enough(p, k + 1, Pop(pools, z))
  {
    var zones := ConfigZones(p.replicas);
    var z := p.replicas[k].zone;
    assert zones[k] == z;
    CountNext(zones, k);
    CountOfPrefix(zones, k + 1, z);
    hide Count, ConfigZones;
  }

  lemma StillDifferent(pools: Pools, z: string)
    requires Different(pools) && z in pools && pools[z] != []
    ensures Different(Pop(pools, z))
    ensures forall y, a: nat, ip :: InPools(Pop(pools, z), y, a, ip) ==>
              ip != pools[z][0].staticIP && InPools(pools, y, if y == z then a + 1 else a, ip)
  {
    var pools' := Pop(pools, z);
    assert InPools(pools, z, 0, pools[z][0].staticIP);
    forall y, a: nat, ip | InPools(pools', y, a, ip) ensures InPools(pools, y, if y == z then a + 1 else a, ip) {}
    forall y, a: nat, x, b: nat, ip | InPools(pools', y, a, ip) && InPools(pools', x, b, ip) ensures y == x && a == b {
      assert InPools(pools, y, if y == z then a + 1 else a, ip);
      assert InPools(pools, x, if x == z then b + 1 else b, ip);
    }
  }

  /** The next member gets the first address of its zone's pool. */
  lemma TakeIP(p: Plan, uuid: string, ms: map<Key, ServiceMember>, ips: map<IP, ServiceStaticIP>, k: nat, pools: Pools, m: ServiceMember)
    requires ValidPlan(p) && PoolsLeft(p, uuid, ms, ips, k, pools) && k < |p.replicas|
    requires p.replicas[k].zone in pools && pools[p.replicas[k].zone] != [] && m.spec.staticIP == pools[p.replicas[k].zone][0].staticIP
    ensures PoolsLeft(p, uuid, ms[MemberKey(p, uuid, k) := m], ips, k + 1, Pop(pools, p.replicas[k].zone))
  {
    var z := p.replicas[k].zone;
    var pools' := Pop(pools, z);
    var ms' := ms[MemberKey(p, uuid, k) := m];
    StillEnough(p, k, pools);
    StillDifferent(pools, z);
    assert forall i :: 0 <= i < k ==> MemberKey(p, uuid, i) != MemberKey(p, uuid, k);
    hide Enough, Different, InPools;
    forall y, a: nat, ip | InPools(pools', y, a, ip)
      ensures ip in ips && ips[ip].serviceUUID == uuid && forall i :: 0 <= i < k + 1 ==> IPOf(p, uuid, ms', i) != ip
    {
      assert forall i :: 0 <= i < k ==> IPOf(p, uuid, ms', i) == IPOf(p, uuid, ms, i);
    }
  }

  /** The address is usable for the next member. */
  lemma FirstIsFree(p: Plan, uuid: string, ms: map<Key, ServiceMember>, ips: map<IP, ServiceStaticIP>, k: nat, pools: Pools)
    requires PoolsLeft(p, uuid, ms, ips, k, pools) && k < |p.replicas|
    ensures var z := p.replicas[k].zone;
            && z in pools && pools[z] != []
            && pools[z][0].staticIP in ips && ips[pools[z][0].staticIP].serviceUUID == uuid
            && NotHeld(p, uuid, ms, k, pools[z][0].staticIP)
  {
    StillEnough(p, k, pools);
    hide Enough;
    var z := p.replicas[k].zone;
    assert InPools(pools, z, 0, pools[z][0].staticIP);
  }

  /** What CreateStaticIPs returns is enough for the configs without a member. */
  lemma PoolsFromListing(p: Plan, uuid: string, sv: ServiceVolumes, members: map<Key, ServiceMember>, ips: map<IP, ServiceStaticIP>,
                         k: nat, ms: seq<ServiceMember>, nets: Nets, pools: Pools)
    requires ValidPlan(p) && MembersOf(p, uuid, sv, members, k) && IPsOK(p, uuid, members, ips, k) && ListsMembers(members, uuid, ms)
    requires NetsOK(nets) && PoolsOK(ips, nets, uuid, TakenIPs(ms), pools)
    requires forall z :: z in pools <==> z in ConfigZones(p.replicas)
    requires forall z :: z in pools ==> |pools[z]| >= Pending(p.replicas, ms, z)
    ensures PoolsLeft(p, uuid, members, ips, k, pools)
  {
    hide ValidPlan;
    MembersThere(p, uuid, members, ips, k);
    PoolsDiffer(ips, nets, uuid, TakenIPs(ms), pools);
    PoolsFree(p, uuid, sv, members, ips, k, ms, nets, pools);
    forall z | z in pools ensures |pools[z]| >= Count(ConfigZones(p.replicas), z) - Count(ConfigZones(p.replicas)[..k], z) {
      ListingZones(p, uuid, sv, members, k, ms, z);
      hide MembersOf, IPsOK, ListsMembers, PoolsOK, NetsOK, Count, ConfigZones, MemberZones;
    }
    hide MembersOf, IPsOK, ListsMembers, PoolsOK, NetsOK, Count, Different;
  }

  lemma PoolsDiffer(ips: map<IP, ServiceStaticIP>, nets: Nets, uuid: string, taken: set<IP>, pools: Pools)
    requires NetsOK(nets) && PoolsOK(ips, nets, uuid, taken, pools)
    ensures Different(pools)
  {
    hide NetsOK, PoolInZone;
    forall y, a: nat, z, b: nat, ip | InPools(pools, y, a, ip) && InPools(pools, z, b, ip) ensures y == z && a == b {
      assert InPool(pools[y], ip) && InPool(pools[z], ip);
      ZonesDiffer(ips, nets, uuid, taken, pools, y, z, ip);
    }
  }

  lemma PoolsFree(p: Plan, uuid: string, sv: ServiceVolumes, members: map<Key, ServiceMember>,
                  ips: map<IP, ServiceStaticIP>, k: nat, ms: seq<ServiceMember>, nets: Nets, pools: Pools)
    requires MembersOf(p, uuid, sv, members, k) && ListsMembers(members, uuid, ms)
    requires PoolsOK(ips, nets, uuid, TakenIPs(ms), pools)
    ensures k <= |p.replicas| && (forall i :: 0 <= i < k ==> MemberKey(p, uuid, i) in members) && Free(p, uuid, members, ips, k, pools)
  {
    forall i | 0 <= i < k ensures IPOf(p, uuid, members, i) in TakenIPs(ms) {
      var a := IndexIsListed(p, uuid, sv, members, k, ms, i);
      hide MembersOf;
      assert ms[a] == members[MemberKey(p, uuid, i)];
      assert ms[a].spec.staticIP in TakenIPs(ms);
    }
    assert k <= |p.replicas| && forall i :: 0 <= i < k ==> MemberKey(p, uuid, i) in members;
    hide MembersOf, ListsMembers, PoolInZone, TakenIPs;
    forall z, a: nat, ip | InPools(pools, z, a, ip)
      ensures ip in ips && ips[ip].serviceUUID == uuid && forall i :: 0 <= i < k ==> IPOf(p, uuid, members, i) != ip
    {
      assert PoolOK(ips, uuid, TakenIPs(ms), pools[z]);
    }
  }

  // ---------------------------------------------------------------- the methods

  /** The member with its volumes is stored, if its name is still free; they are two new ones, or the platform's own. */
  method CreateServiceMember(db: DB, cloud: Platform, service: string, uuid: string, sv: ServiceVolumes, zone: string, memberName: string,
                             staticIP: IP, configs: seq<ConfigID>, ghost p: Plan, ghost i: nat)
    returns (r: Option<ServiceMember>, ghost m: Option<ServiceMember>)
    requires db.Valid() && cloud.Valid() && Vol.NamesApart(p.replicas) && service == p.service
    requires i < |p.replicas| && zone == p.replicas[i].zone && memberName == p.replicas[i].memberName
    requires configs == IDsOf(p.md5, memberName, p.replicas[i].configs)
    modifies db, cloud`volumes, cloud`claims
    ensures db.Valid() && cloud.Valid() && db.Contents() == old(db.Contents()).(members := db.memberMap)
    ensures m.None? ==> db.memberMap == old(db.memberMap) && r.None?
    ensures m.Some? ==> db.memberMap == old(db.memberMap)[MemberKey(p, uuid, i) := m.value]
    ensures m.Some? ==> IsMember(p, uuid, sv, i, m.value) && m.value.spec.staticIP == staticIP
    ensures m.Some? ==> MemberKey(p, uuid, i) !in old(db.memberMap)
    ensures r.Some? ==> r == m
    ensures VolumesLater(p, uuid, old(db.memberMap), old(cloud.volumes), old(cloud.claims), db.memberMap, cloud.volumes, cloud.claims)
    ensures AllBacked(p, uuid, sv, old(db.memberMap), old(cloud.volumes), old(cloud.claims)) ==>
              && AllBacked(p, uuid, sv, db.memberMap, cloud.volumes, cloud.claims)
              && (m.Some? ==> Vol.VolumesMade(zone, sv, m.value.spec.volumes, cloud.volumes))
    ensures db.reliable && cloud.reliable && MemberKey(p, uuid, i) !in old(db.memberMap) ==> r.Some?
  {
    hide Vol.Backed, Vol.Making, Vol.VolumesGrow, Vol.Makes, Vol.NamesApart, Vol.VolumesMade, IsMember;
    var vols := MemberVolumes("", "", "", "");
    ghost var c, ms, vols0, claims0 := p.replicas[i], db.memberMap, cloud.volumes, cloud.claims;
    Vol.MakingStarts(service, uuid, sv, p.replicas, c, ms, vols0, claims0);
    if |sv.primaryDeviceName| != 0 {
      var volID := Vol.CreateVolume(cloud, service, sv, zone, memberName, false);
      if volID.None? {
        Vol.MakingPrimary(service, uuid, sv, p.replicas, c, ms, vols0, claims0, cloud.volumes, cloud.claims, volID, vols);
        NothingStored(p, uuid, sv, i, ms, vols0, claims0, cloud.volumes, cloud.claims, vols);
        return None, None;
      }
      vols := vols.(primaryVolumeID := volID.value, primaryDeviceName := sv.primaryDeviceName);
      Vol.MakingPrimary(service, uuid, sv, p.replicas, c, ms, vols0, claims0, cloud.volumes, cloud.claims, volID, vols);
    }
    ghost var before, vols1, claims1 := vols, cloud.volumes, cloud.claims;
    if |sv.journalDeviceName| != 0 {
      var volID := Vol.CreateVolume(cloud, service, sv, zone, memberName, true);
      if volID.None? {
        Vol.MakingJournal(service, uuid, sv, p.replicas, c, ms, vols0, claims0, vols1, claims1, cloud.volumes, cloud.claims, volID, before, vols);
        NothingStored(p, uuid, sv, i, ms, vols0, claims0, cloud.volumes, cloud.claims, vols);
        return None, None;
      }
      vols := vols.(journalVolumeID := volID.value, journalDeviceName := sv.journalDeviceName);
      Vol.MakingJournal(service, uuid, sv, p.replicas, c, ms, vols0, claims0, vols1, claims1, cloud.volumes, cloud.claims, volID, before, vols);
    }
    var now := *;
    var spec := MemberSpec(zone, DEFAULT_TASK_ID, DEFAULT_CONTAINER_INSTANCE_ID, DEFAULT_SERVER_INSTANCE_ID, vols, staticIP, configs);
    var member := ServiceMember(uuid, memberName, 0, MemberMeta(now, MEMBER_ACTIVE), spec);
    var err := db.CreateServiceMember(member);
    m := if db.memberMap == old(db.memberMap) then None else Some(member);
    r := if err.None? then Some(member) else None;
    assert r.Some? ==> MemberKey(p, uuid, i) in db.memberMap && MemberKey(p, uuid, i) !in old(db.memberMap);
    Vol.MakingDone(service, uuid, sv, p.replicas, c, ms, vols0, claims0, cloud.volumes, cloud.claims, vols, member);
    assert IsMember(p, uuid, sv, i, member) by { PlannedMember(p, uuid, sv, i, member); }
  }

  lemma NothingStored(p: Plan, uuid: string, sv: ServiceVolumes, i: nat, ms: map<Key, ServiceMember>,
                      vols: map<string, Volume>, claims: map<Claim, string>, vols': map<string, Volume>, claims': map<Claim, string>,
                      v: MemberVolumes)
    requires i < |p.replicas| && Vol.NamesApart(p.replicas)
    requires Vol.Making(p.service, uuid, sv, p.replicas, p.replicas[i], ms, vols, claims, vols', claims', v)
    ensures VolumesLater(p, uuid, ms, vols, claims, ms, vols', claims')
    ensures AllBacked(p, uuid, sv, ms, vols, claims) ==> AllBacked(p, uuid, sv, ms, vols', claims')
  {
    hide Vol.Backed, Vol.Making, Vol.VolumesGrow, Vol.NamesApart;
    var spec := MemberSpec("", "", "", "", v, [], []);
    Vol.MakingDone(p.service, uuid, sv, p.replicas, p.replicas[i], ms, vols, claims, vols', claims', v,
                   ServiceMember(uuid, "", 0, MemberMeta(0, ""), spec));
  }

  lemma PlannedMember(p: Plan, uuid: string, sv: ServiceVolumes, i: nat, m: ServiceMember)
    requires i < |p.replicas| && VolumesFit(sv, m.spec.volumes)
    requires m == MemberFor(p, uuid, i, m.spec.volumes, m.spec.staticIP, m.meta.lastModified)
    ensures IsMember(p, uuid, sv, i, m)
  {
  }

  /** No volume is held twice, and those of the service are in their members' zones and as it asked for. */
  ghost predicate AllBacked(p: Plan, uuid: string, sv: ServiceVolumes, ms: map<Key, ServiceMember>,
                            vols: map<string, Volume>, claims: map<Claim, string>) {
    Vol.Backed(p.service, uuid, sv, p.replicas, ms, vols, claims)
  }

  /** The volumes are those there were and new ones of the service's. */
  ghost predicate VolumesLater(p: Plan, uuid: string, ms: map<Key, ServiceMember>, vols: map<string, Volume>, claims: map<Claim, string>,
                               ms': map<Key, ServiceMember>, vols': map<string, Volume>, claims': map<Claim, string>) {
    Vol.VolumesGrow(p.service, uuid, ms, vols, claims, ms', vols', claims')
  }

  /** What the attempts so far have done in a new service: there was nothing before, and its members are as they were made. */
  ghost predicate Fresh(p: Plan, uuid: string, sv: ServiceVolumes, before: Tables, t: Tables, k: nat) {
    Unused(uuid, before) && Made(p, uuid, sv, before, t, k)
  }

  /** The files of the next config and then its member. */
  method CreateNext(db: DB, cloud: Platform, md5: string -> string, service: string, uuid: string, sv: ServiceVolumes,
                    replicaCfg: ReplicaConfig, hostIP: IP,
                    ghost p: Plan, ghost refs: seq<ConfigID>, ghost isNew: bool, ghost before: Tables, i: nat)
    returns (r: Option<ServiceMember>, ghost m: Option<ServiceMember>)
    requires db.Valid() && cloud.Valid() && ValidPlan(p) && HasMembers(p, uuid, sv, refs, db.Contents(), i)
    requires isNew ==> Fresh(p, uuid, sv, before, db.Contents(), i)
    requires i < |p.replicas| && replicaCfg == p.replicas[i] && md5 == p.md5 && service == p.service
    requires p.requireStaticIP ==> hostIP in db.ipMap && db.ipMap[hostIP].serviceUUID == uuid && NotHeld(p, uuid, db.memberMap, i, hostIP)
    requires !p.requireStaticIP ==> hostIP == DEFAULT_HOST_IP
    modifies db, cloud`volumes, cloud`claims
    ensures db.Valid() && cloud.Valid() && db.Contents() == old(db.Contents()).(members := db.memberMap, configs := db.cfgMap)
    ensures OnlyOwn(md5, uuid, replicaCfg.memberName, replicaCfg.configs, old(db.cfgMap), db.cfgMap)
    ensures NewContents(md5, uuid, replicaCfg.memberName, replicaCfg.configs, old(db.cfgMap), db.cfgMap)
    ensures Hashed(md5, old(db.cfgMap)) ==> Hashed(md5, db.cfgMap)
    ensures isNew ==> Grown(old(db.cfgMap), db.cfgMap)
    ensures m.None? ==> r.None? && db.memberMap == old(db.memberMap)
    ensures m.Some? ==> db.memberMap == old(db.memberMap)[MemberKey(p, uuid, i) := m.value] && MemberKey(p, uuid, i) !in old(db.memberMap)
    ensures m.Some? ==> IsMember(p, uuid, sv, i, m.value) && m.value.spec.staticIP == hostIP
    ensures r.Some? ==> r == m
    ensures HasMembers(p, uuid, sv, refs, db.Contents(), if m.None? then i else i + 1)
    ensures isNew ==> Fresh(p, uuid, sv, before, db.Contents(), if m.None? then i else i + 1)
    ensures KeepsVolumes(p, uuid, sv, old(db.memberMap), old(cloud.volumes), old(cloud.claims), db.memberMap, cloud.volumes, cloud.claims)
    ensures db.reliable && cloud.reliable ==> r.Some?
  {
    hide HasMembers, Fresh, ValidPlan, IsMember, FilesOf, FilesOK, NoFiles, Grown, OnlyOwn, NewContents, Hashed, AllBacked, VolumesLater;
    ghost var t := db.Contents();
    VolumesStay(p, uuid, sv, t.members, cloud.volumes, cloud.claims);
    NextIsFree(p, uuid, sv, refs, t, i);
    if isNew { FreshFiles(p, uuid, sv, before, t, i); }
    var cfgs := CreateFilesOf(db, p, md5, uuid, i + 1, replicaCfg.memberName, replicaCfg.configs, isNew, before.configs, i + 1);
    FilesOfNext(p, uuid, sv, refs, t, i, db.cfgMap);
    if isNew { FreshAfterFiles(p, uuid, sv, before, t, i, db.cfgMap); }
    if cfgs.None? {
      return None, None;
    }
    t := db.Contents();
    r, m := CreateServiceMember(db, cloud, service, uuid, sv, replicaCfg.zone, replicaCfg.memberName, hostIP, cfgs.value, p, i);
    if m.Some? {
      OneMore(p, uuid, sv, refs, t, i, m.value);
      if isNew { FreshNext(p, uuid, sv, before, t, i, m.value); }
    }
  }

  lemma NoVolumesLater(p: Plan, uuid: string, ms: map<Key, ServiceMember>, vols: map<string, Volume>, claims: map<Claim, string>)
    ensures VolumesLater(p, uuid, ms, vols, claims, ms, vols, claims)
  {
    Vol.NoVolumeMade(p.service, uuid, ms, vols, claims);
  }

  lemma NextIsFree(p: Plan, uuid: string, sv: ServiceVolumes, refs: seq<ConfigID>, t: Tables, k: nat)
    requires ValidPlan(p) && HasMembers(p, uuid, sv, refs, t, k) && k < |p.replicas|
    ensures MemberKey(p, uuid, k) !in t.members && Vol.NamesApart(p.replicas)
  {
    hide IPsOK, RefsOK, WellKeyed, VolumesFit;
    PlanNames(p);
  }

  lemma PlanNames(p: Plan)
    requires ValidPlan(p)
    ensures Vol.NamesApart(p.replicas)
  {
  }

  lemma FilesOfNext(p: Plan, uuid: string, sv: ServiceVolumes, refs: seq<ConfigID>, t: Tables, k: nat, files: map<Key, ConfigFile>)
    requires HasMembers(p, uuid, sv, refs, t, k) && k < |p.replicas|
    requires OnlyOwn(p.md5, uuid, PrefixAt(p, k + 1), ConfigsAt(p, k + 1), t.configs, files)
    ensures HasMembers(p, uuid, sv, refs, t.(configs := files), k)
  {
    hide MembersOf, IPsOK, RefsOK, OnlyOwn, WellKeyed;
    RefsOfOthers(p, uuid, refs, t.members, t.configs, files, k);
  }

  lemma FreshFiles(p: Plan, uuid: string, sv: ServiceVolumes, before: Tables, t: Tables, k: nat)
    requires Fresh(p, uuid, sv, before, t, k)
    ensures FilesOK(p, uuid, before.configs, t.configs, k + 1) && NoFiles(uuid, before.configs)
    ensures p.requireStaticIP || t.ips == before.ips
  {
    hide MembersOK, IPsOK, FilesOK, NoFiles, NoMembers;
  }

  lemma FreshAfterFiles(p: Plan, uuid: string, sv: ServiceVolumes, before: Tables, t: Tables, k: nat, files: map<Key, ConfigFile>)
    requires Fresh(p, uuid, sv, before, t, k) && Grown(t.configs, files) && FilesOK(p, uuid, before.configs, files, k + 1)
    ensures Fresh(p, uuid, sv, before, t.(configs := files), k)
  {
    hide Made, Unused, Grown, FilesOK;
    FilesMade(p, uuid, sv, before, t, k, files);
  }

  lemma FreshNext(p: Plan, uuid: string, sv: ServiceVolumes, before: Tables, t: Tables, k: nat, m: ServiceMember)
    requires ValidPlan(p) && Fresh(p, uuid, sv, before, t, k) && k < |p.replicas|
    requires IsMember(p, uuid, sv, k, m) && FilesOf(p, uuid, k + 1, t.configs)
    requires p.requireStaticIP ==> m.spec.staticIP in t.ips && t.ips[m.spec.staticIP].serviceUUID == uuid
    requires p.requireStaticIP ==> NotHeld(p, uuid, t.members, k, m.spec.staticIP)
    requires !p.requireStaticIP ==> m.spec.staticIP == DEFAULT_HOST_IP
    ensures Fresh(p, uuid, sv, before, t.(members := t.members[MemberKey(p, uuid, k) := m]), k + 1)
  {
    hide Made, Unused, IsMember, FilesOf, ValidPlan, NotHeld;
    OneMade(p, uuid, sv, before, t, k, m);
  }

  lemma FreshIPs(p: Plan, uuid: string, sv: ServiceVolumes, before: Tables, t: Tables, k: nat, ips: map<IP, ServiceStaticIP>)
    requires Fresh(p, uuid, sv, before, t, k) && IPsAdded(t.ips, ips, uuid) && WellKeyed(ips) && p.requireStaticIP
    ensures Fresh(p, uuid, sv, before, t.(ips := ips), k)
  {
    hide Made, Unused, IPsAdded, WellKeyed;
    IPsMade(p, uuid, sv, before, t, k, ips);
  }

  lemma IPsFor(p: Plan, uuid: string, sv: ServiceVolumes, refs: seq<ConfigID>, t: Tables, k: nat, ips: map<IP, ServiceStaticIP>)
    requires HasMembers(p, uuid, sv, refs, t, k) && IPsAdded(t.ips, ips, uuid) && WellKeyed(ips)
    ensures HasMembers(p, uuid, sv, refs, t.(ips := ips), k)
  {
    hide MembersOf, RefsOK;
  }

  /** Members are added for the configs from number k to n, and no other member changes. */
  ghost predicate MembersAdded(p: Plan, uuid: string, sv: ServiceVolumes, ms: map<Key, ServiceMember>, k: nat,
                               ms': map<Key, ServiceMember>, n: nat) {
    && k <= n && (n > k ==> n <= |p.replicas|)
    && (forall key :: key in ms ==> key in ms' && ms'[key] == ms[key])
    && (forall key :: key in ms' && key !in ms ==> key.0 == uuid)
    && (forall i :: k <= i < n ==> MemberKey(p, uuid, i) in ms' && IsMember(p, uuid, sv, i, ms'[MemberKey(p, uuid, i)]))
  }

  /** Only initial files of the configs from number k to n and of the next one are written, with their contents. */
  ghost predicate FilesWritten(p: Plan, uuid: string, files: map<Key, ConfigFile>, k: nat, files': map<Key, ConfigFile>, n: nat) {
    && (forall key :: !LaterKey(p, uuid, k, n, key) ==> SameAt(files', files, key))
    && (forall q: nat, j: nat :: k < q <= n + 1 && q <= |p.replicas| && j < |ConfigsAt(p, q)| ==>
          NewContent(files, files', (uuid, IDAt(p, q, j)), ConfigsAt(p, q)[j].content))
  }

  ghost predicate LaterKey(p: Plan, uuid: string, k: nat, n: nat, key: Key) {
    exists q: nat, j: nat :: k < q <= n + 1 && q <= |p.replicas| && j < |ConfigsAt(p, q)| && key == (uuid, IDAt(p, q, j))
  }

  lemma NothingAdded(p: Plan, uuid: string, sv: ServiceVolumes, ms: map<Key, ServiceMember>, files: map<Key, ConfigFile>, k: nat)
    ensures MembersAdded(p, uuid, sv, ms, k, ms, k) && FilesWritten(p, uuid, files, k, files, k)
  {
  }

  lemma AddedNext(p: Plan, uuid: string, sv: ServiceVolumes, ms0: map<Key, ServiceMember>, k: nat, ms: map<Key, ServiceMember>,
                  n: nat, m: ServiceMember)
    requires ValidPlan(p) && MembersAdded(p, uuid, sv, ms0, k, ms, n) && n < |p.replicas| && IsMember(p, uuid, sv, n, m)
    requires MemberKey(p, uuid, n) !in ms
    ensures MembersAdded(p, uuid, sv, ms0, k, ms[MemberKey(p, uuid, n) := m], n + 1)
  {
    hide IsMember;
    assert forall i :: k <= i < n ==> MemberKey(p, uuid, i) != MemberKey(p, uuid, n);
  }

  lemma ContentNext(p: Plan, uuid: string, files0: map<Key, ConfigFile>, k: nat, files: map<Key, ConfigFile>, n: nat,
                    files': map<Key, ConfigFile>, q: nat, j: nat)
    requires ValidPlan(p) && FilesWritten(p, uuid, files0, k, files, n) && k <= n < |p.replicas|
    requires OnlyOwn(p.md5, uuid, PrefixAt(p, n + 1), ConfigsAt(p, n + 1), files, files')
    requires NewContents(p.md5, uuid, PrefixAt(p, n + 1), ConfigsAt(p, n + 1), files, files')
    requires k < q <= n + 2 && q <= |p.replicas| && j < |ConfigsAt(p, q)|
    ensures NewContent(files0, files', (uuid, IDAt(p, q, j)), ConfigsAt(p, q)[j].content)
  {
    hide FileID;
    var key: Key := (uuid, IDAt(p, q, j));
    if q == n + 1 {
      assert NewContent(files, files', key, ConfigsAt(p, q)[j].content);
    } else {
      NotOfOwner(p, uuid, q, j, n + 1);
      if q == n + 2 { NotLaterKey(p, uuid, k, n, q, j); }
    }
  }

  lemma NotOfOwner(p: Plan, uuid: string, q: nat, j: nat, o: nat)
    requires ValidPlan(p) && q <= |p.replicas| && j < |ConfigsAt(p, q)| && o <= |p.replicas| && q != o
    ensures !IsKey(p.md5, uuid, PrefixAt(p, o), ConfigsAt(p, o), (uuid, IDAt(p, q, j)))
  {
    hide FileID;
    forall i: nat | i < |ConfigsAt(p, o)| ensures FileID(p.md5, PrefixAt(p, o), ConfigsAt(p, o)[i].fileName) != IDAt(p, q, j) {
      assert IDAt(p, o, i) == FileID(p.md5, PrefixAt(p, o), ConfigsAt(p, o)[i].fileName);
    }
  }

  lemma NotLaterKey(p: Plan, uuid: string, k: nat, n: nat, q: nat, j: nat)
    requires ValidPlan(p) && n + 1 < q <= |p.replicas| && j < |ConfigsAt(p, q)|
    ensures !LaterKey(p, uuid, k, n, (uuid, IDAt(p, q, j)))
  {
    hide FileID;
  }

  lemma WrittenNext(p: Plan, uuid: string, files0: map<Key, ConfigFile>, k: nat, files: map<Key, ConfigFile>, n: nat,
                    files': map<Key, ConfigFile>, n': nat)
    requires ValidPlan(p) && FilesWritten(p, uuid, files0, k, files, n) && k <= n < |p.replicas| && n <= n' <= n + 1
    requires OnlyOwn(p.md5, uuid, PrefixAt(p, n + 1), ConfigsAt(p, n + 1), files, files')
    requires NewContents(p.md5, uuid, PrefixAt(p, n + 1), ConfigsAt(p, n + 1), files, files')
    ensures FilesWritten(p, uuid, files0, k, files', n')
  {
    forall q: nat, j: nat | k < q <= n' + 1 && q <= |p.replicas| && j < |ConfigsAt(p, q)|
      ensures NewContent(files0, files', (uuid, IDAt(p, q, j)), ConfigsAt(p, q)[j].content)
    {
      ContentNext(p, uuid, files0, k, files, n, files', q, j);
    }
    hide FileID, ValidPlan, NewContents;
    forall key | !LaterKey(p, uuid, k, n', key) ensures SameAt(files', files0, key) {
      assert LaterKey(p, uuid, k, n, key) ==> LaterKey(p, uuid, k, n', key);
      var cfgs := ConfigsAt(p, n + 1);
      forall j: nat | j < |cfgs| ensures key != (uuid, FileID(p.md5, PrefixAt(p, n + 1), cfgs[j].fileName)) {
        assert key == (uuid, IDAt(p, n + 1, j)) ==> LaterKey(p, uuid, k, n', key);
      }
    }
  }

  /** Every volume of the member is one of the cloud's. */
  predicate HasVolumes(v: MemberVolumes, vols: map<string, Volume>) {
    && (v.primaryVolumeID != "" ==> v.primaryVolumeID in vols)
    && (v.journalVolumeID != "" ==> v.journalVolumeID in vols)
  }

  /** The volumes of all the members are waited for. */
  method WaitForVolumes(cloud: Platform, members: seq<ServiceMember>) returns (ok: bool)
    ensures ok ==> forall i :: 0 <= i < |members| ==> HasVolumes(members[i].spec.volumes, cloud.volumes)
    ensures cloud.reliable && (forall i :: 0 <= i < |members| ==> HasVolumes(members[i].spec.volumes, cloud.volumes)) ==> ok
  {
    for i := 0 to |members|
      invariant forall k :: 0 <= k < i ==> HasVolumes(members[k].spec.volumes, cloud.volumes)
    {
      var v := members[i].spec.volumes;
      if |v.primaryVolumeID| != 0 {
        var there := cloud.WaitVolumeCreated(v.primaryVolumeID);
        if !there {
          return false;
        }
      }
      if |v.journalVolumeID| != 0 {
        var there := cloud.WaitVolumeCreated(v.journalVolumeID);
        if !there {
          return false;
        }
      }
    }
    ok := true;
  }

  /** Each of them is a stored member of the service. */
  ghost predicate StoredMembers(ms: map<Key, ServiceMember>, uuid: string, members: seq<ServiceMember>) {
    forall i :: 0 <= i < |members| ==> (uuid, members[i].memberName) in ms && ms[(uuid, members[i].memberName)] == members[i]
  }

  ghost predicate AllHaveVolumes(uuid: string, ms: map<Key, ServiceMember>, vols: map<string, Volume>) {
    forall name :: (uuid, name) in ms ==> HasVolumes(ms[(uuid, name)].spec.volumes, vols)
  }

  lemma FirstMembers(ms: map<Key, ServiceMember>, uuid: string, listing: seq<ServiceMember>, n: nat)
    requires ListsMembers(ms, uuid, listing)
    ensures StoredMembers(ms, uuid, if n < |listing| then listing[..n] else listing)
  {
  }

  lemma StoredNext(ms: map<Key, ServiceMember>, uuid: string, members: seq<ServiceMember>, m: ServiceMember)
    requires StoredMembers(ms, uuid, members) && (uuid, m.memberName) !in ms
    ensures StoredMembers(ms[(uuid, m.memberName) := m], uuid, members + [m])
  {
  }

  lemma AllWaitedFor(ms: map<Key, ServiceMember>, uuid: string, members: seq<ServiceMember>, vols: map<string, Volume>)
    requires ListsMembers(ms, uuid, members) && forall i :: 0 <= i < |members| ==> HasVolumes(members[i].spec.volumes, vols)
    ensures AllHaveVolumes(uuid, ms, vols)
  {
    forall name | (uuid, name) in ms ensures HasVolumes(ms[(uuid, name)].spec.volumes, vols) {
      assert Listed(members, name);
      var i :| 0 <= i < |members| && members[i].memberName == name;
    }
  }

  lemma BackedHaveVolumes(p: Plan, uuid: string, sv: ServiceVolumes, ms: map<Key, ServiceMember>, vols: map<string, Volume>,
                          claims: map<Claim, string>, members: seq<ServiceMember>)
    requires AllBacked(p, uuid, sv, ms, vols, claims) && StoredMembers(ms, uuid, members)
    ensures forall i :: 0 <= i < |members| ==> HasVolumes(members[i].spec.volumes, vols)
  {
    forall i | 0 <= i < |members| ensures HasVolumes(members[i].spec.volumes, vols) {
      var key: Key := (uuid, members[i].memberName);
      var v := members[i].spec.volumes;
      assert v.primaryVolumeID != "" ==> Vol.Holds(ms, key, false, v.primaryVolumeID);
      assert v.journalVolumeID != "" ==> Vol.Holds(ms, key, true, v.journalVolumeID);
      hide Vol.Holds, Vol.ClaimsFit, Vol.AsWanted, Vol.Apart;
    }
  }

  /** Every member's address is on an interface of its zone. */
  ghost predicate Placed(uuid: string, ms: map<Key, ServiceMember>, nets: Nets) {
    forall name :: (uuid, name) in ms ==> OnZone(nets, ms[(uuid, name)].spec.availableZone, ms[(uuid, name)].spec.staticIP)
  }

  /** No member has the primary address of an interface of its zone: that is its host's. */
  ghost predicate NoPrimaryHeld(uuid: string, ms: map<Key, ServiceMember>, nets: Nets) {
    forall name :: (uuid, name) in ms && ms[(uuid, name)].spec.availableZone in nets ==>
      !IsPrimary(nets[ms[(uuid, name)].spec.availableZone], ms[(uuid, name)].spec.staticIP)
  }

  lemma PlacedApart(uuid: string, ms: map<Key, ServiceMember>, nets: Nets)
    requires Placed(uuid, ms, nets) && PrimariesApart(nets)
    ensures NoPrimaryHeld(uuid, ms, nets)
  {
    hide OnZone;
  }

  lemma StillPlaced(uuid: string, ms: map<Key, ServiceMember>, nets: Nets, nets': Nets)
    requires Placed(uuid, ms, nets) && NetsGrow(nets, nets')
    ensures Placed(uuid, ms, nets')
  {
    hide OnZone;
  }

  ghost predicate PoolsInZones(nets: Nets, pools: Pools) { forall z :: z in pools ==> PoolInZone(nets, z, pools[z]) }

  /** What making members does to the places of addresses. */
  ghost predicate KeepsPlaces(requireStaticIP: bool, uuid: string, ms: map<Key, ServiceMember>, nets: Nets,
                              ms': map<Key, ServiceMember>, nets': Nets) {
    && NetsGrow(nets, nets') && (PrimariesApart(nets) ==> PrimariesApart(nets'))
    && (requireStaticIP && Placed(uuid, ms, nets) ==> Placed(uuid, ms', nets'))
  }

  lemma PlacesStay(requireStaticIP: bool, uuid: string, ms: map<Key, ServiceMember>, nets: Nets)
    ensures KeepsPlaces(requireStaticIP, uuid, ms, nets, ms, nets)
  {
    NetsStay(nets);
    hide NetsGrow, PrimariesApart, Placed;
  }

  lemma PlacesAfterIPs(requireStaticIP: bool, uuid: string, ms: map<Key, ServiceMember>, nets: Nets, nets': Nets)
    requires NetsGrow(nets, nets') && (PrimariesApart(nets) ==> PrimariesApart(nets'))
    ensures KeepsPlaces(requireStaticIP, uuid, ms, nets, ms, nets')
  {
    hide NetsGrow, PrimariesApart, Placed;
    if Placed(uuid, ms, nets) { StillPlaced(uuid, ms, nets, nets'); }
  }

  lemma PlacesNext(p: Plan, uuid: string, sv: ServiceVolumes, ms0: map<Key, ServiceMember>, nets0: Nets,
                   ms: map<Key, ServiceMember>, nets: Nets, n: nat, pools: Pools, m: ServiceMember)
    requires KeepsPlaces(p.requireStaticIP, uuid, ms0, nets0, ms, nets) && n < |p.replicas| && IsMember(p, uuid, sv, n, m)
    requires p.requireStaticIP ==>
               && PoolsInZones(nets, pools)
               && var z := p.replicas[n].zone; z in pools && pools[z] != [] && m.spec.staticIP == pools[z][0].staticIP
    ensures KeepsPlaces(p.requireStaticIP, uuid, ms0, nets0, ms[MemberKey(p, uuid, n) := m], nets)
  {
    hide NetsGrow, PrimariesApart, Placed, PoolsInZones, IsMember;
    if p.requireStaticIP && Placed(uuid, ms, nets) { PlacedNext(p, uuid, sv, ms, nets, n, pools, m); }
  }

  /** So no member gets a host's own address. */
  lemma NoPrimaryComesHeld(uuid: string, ms: map<Key, ServiceMember>, nets: Nets, ms': map<Key, ServiceMember>, nets': Nets)
    requires KeepsPlaces(true, uuid, ms, nets, ms', nets') && Placed(uuid, ms, nets) && PrimariesApart(nets)
    ensures NoPrimaryHeld(uuid, ms', nets')
  {
    hide NetsGrow, PrimariesApart, Placed;
    PlacedApart(uuid, ms', nets');
  }

  /** What making members does to volumes: there are more of them, and it stays that no two devices have one. */
  ghost predicate KeepsVolumes(p: Plan, uuid: string, sv: ServiceVolumes, ms: map<Key, ServiceMember>, vols: map<string, Volume>,
                               claims: map<Claim, string>, ms': map<Key, ServiceMember>, vols': map<string, Volume>,
                               claims': map<Claim, string>) {
    && VolumesLater(p, uuid, ms, vols, claims, ms', vols', claims')
    && (AllBacked(p, uuid, sv, ms, vols, claims) ==> AllBacked(p, uuid, sv, ms', vols', claims'))
  }

  lemma VolumesStay(p: Plan, uuid: string, sv: ServiceVolumes, ms: map<Key, ServiceMember>, vols: map<string, Volume>, claims: map<Claim, string>)
    ensures KeepsVolumes(p, uuid, sv, ms, vols, claims, ms, vols, claims)
  {
    hide AllBacked, VolumesLater;
    NoVolumesLater(p, uuid, ms, vols, claims);
  }

  lemma KeepsVolumesTwice(p: Plan, uuid: string, sv: ServiceVolumes, ms: map<Key, ServiceMember>, vols: map<string, Volume>,
                          claims: map<Claim, string>, ms1: map<Key, ServiceMember>, vols1: map<string, Volume>, claims1: map<Claim, string>,
                          ms2: map<Key, ServiceMember>, vols2: map<string, Volume>, claims2: map<Claim, string>)
    requires KeepsVolumes(p, uuid, sv, ms, vols, claims, ms1, vols1, claims1) && KeepsVolumes(p, uuid, sv, ms1, vols1, claims1, ms2, vols2, claims2)
    ensures KeepsVolumes(p, uuid, sv, ms, vols, claims, ms2, vols2, claims2)
  {
    hide AllBacked, VolumesLater;
    VolumesLaterStill(p, uuid, ms, vols, claims, ms1, vols1, claims1, ms2, vols2, claims2);
  }

  /** The next member's address is on its zone's interfaces. */
  lemma PlacedNext(p: Plan, uuid: string, sv: ServiceVolumes, ms: map<Key, ServiceMember>, nets: Nets, n: nat, pools: Pools, m: ServiceMember)
    requires Placed(uuid, ms, nets) && n < |p.replicas| && IsMember(p, uuid, sv, n, m) && PoolsInZones(nets, pools)
    requires var z := p.replicas[n].zone; z in pools && pools[z] != [] && m.spec.staticIP == pools[z][0].staticIP
    ensures Placed(uuid, ms[MemberKey(p, uuid, n) := m], nets)
  {
    hide OnZone;
    assert PoolInZone(nets, p.replicas[n].zone, pools[p.replicas[n].zone]);
  }

  lemma PoppedInZones(nets: Nets, pools: Pools, z: string)
    requires PoolsInZones(nets, pools) && z in pools && pools[z] != []
    ensures PoolsInZones(nets, Pop(pools, z))
  {
    hide OnZone;
  }

  lemma CreatedInZones(ips: map<IP, ServiceStaticIP>, nets: Nets, uuid: string, taken: set<IP>, pools: Pools)
    requires PoolsOK(ips, nets, uuid, taken, pools)
    ensures PoolsInZones(nets, pools)
  {
    hide OnZone, PoolOK;
  }

  /** If members have static IPs: however the members are listed, there are addresses to adopt for those that are missing. */
  ghost predicate AddressesThere(p: Plan, uuid: string, ms: map<Key, ServiceMember>, ips: map<IP, ServiceStaticIP>, nets: Nets,
                                 subnets: set<string>) {
    p.requireStaticIP ==>
      forall listing :: ListsMembers(ms, uuid, listing) ==> EnoughThere(ips, nets, subnets, uuid, p.replicas, listing)
  }

  lemma ListedEnough(p: Plan, uuid: string, ms: map<Key, ServiceMember>, ips: map<IP, ServiceStaticIP>, nets: Nets,
                     subnets: set<string>, listing: seq<ServiceMember>)
    requires p.requireStaticIP && ListsMembers(ms, uuid, listing)
    ensures AddressesThere(p, uuid, ms, ips, nets, subnets) ==> EnoughThere(ips, nets, subnets, uuid, p.replicas, listing)
  {
    hide EnoughThere, ListsMembers;
  }

  /**
   The members that are missing, and their files, volumes and addresses. Whatever earlier attempts made is
   found again, a member is made for the next configs only, the pools of addresses do not run dry, and
   what the service and its members refer to stays stored. No volume comes to be held twice, and no member
   gets a host's own address. In a new service no file is deleted either.
   */
  method CheckAndCreateServiceMembers(db: DB, server: Server, cloud: Platform, md5: string -> string, replicas: nat,
                                      service: string, uuid: string, serviceType: string,
                                      requireStaticIP: bool, sv: ServiceVolumes, configs: seq<ReplicaConfig>,
                                      ghost p: Plan, ghost refs: seq<ConfigID>, ghost k: nat, ghost isNew: bool, ghost before: Tables)
    returns (ok: bool, ghost n: nat)
    requires db.Valid() && server.Valid() && cloud.Valid() && ValidPlan(p)
    requires HasMembers(p, uuid, sv, refs, db.Contents(), k) && (isNew ==> Fresh(p, uuid, sv, before, db.Contents(), k))
    requires configs == p.replicas && md5 == p.md5 && service == p.service
    requires requireStaticIP == p.requireStaticIP && replicas <= |configs|
    requires forall z :: z in server.nets ==> server.nets[z] != []
    modifies db, server, cloud`volumes, cloud`claims
    ensures db.Valid() && db.Contents() == old(db.Contents()).(members := db.memberMap, configs := db.cfgMap, ips := db.ipMap)
    ensures server.Valid() && cloud.Valid()
    ensures k <= n && (n > k ==> n <= replicas) && HasMembers(p, uuid, sv, refs, db.Contents(), n)
    ensures MembersAdded(p, uuid, sv, old(db.memberMap), k, db.memberMap, n)
    ensures FilesWritten(p, uuid, old(db.cfgMap), k, db.cfgMap, n) && IPsAdded(old(db.ipMap), db.ipMap, uuid)
    ensures Hashed(md5, old(db.cfgMap)) ==> Hashed(md5, db.cfgMap)
    ensures isNew ==> Fresh(p, uuid, sv, before, db.Contents(), n) && Grown(old(db.cfgMap), db.cfgMap)
    ensures ok ==> n >= replicas
    ensures KeepsVolumes(p, uuid, sv, old(db.memberMap), old(cloud.volumes), old(cloud.claims), db.memberMap, cloud.volumes, cloud.claims)
    ensures ok && serviceType != STATELESS && n == replicas ==> AllHaveVolumes(uuid, db.memberMap, cloud.volumes)
    ensures KeepsPlaces(requireStaticIP, uuid, old(db.memberMap), old(server.nets), db.memberMap, server.nets)
    ensures (db.reliable && cloud.reliable && server.reliable
             && AllBacked(p, uuid, sv, old(db.memberMap), old(cloud.volumes), old(cloud.claims))
             && AddressesThere(p, uuid, old(db.memberMap), old(db.ipMap), old(server.nets), server.subnets.Keys)) ==> ok
  {
    hide HasMembers, Fresh, MembersAdded, FilesWritten, OnlyOwn, IPsAdded, IsMember, NewContents, Hashed, KeepsVolumes, AllBacked;
    hide NetsOK, NetsGrow, ValidPlan, PoolsLeft, PoolsOK, WellKeyed, ListsMembers, Pending, TakenIPs, NotHeld, Grown;
    hide AddressesThere, EnoughThere, KeepsPlaces, PrimariesApart, PoolsInZones, StoredMembers, AllHaveVolumes, HasVolumes, MemberKey;
    ghost var ms0, nets0, vols0, claims0 := db.memberMap, server.nets, cloud.volumes, cloud.claims;
    GrownTwice(db.cfgMap, db.cfgMap, db.cfgMap);
    PlacesStay(requireStaticIP, uuid, ms0, nets0);
    NothingAdded(p, uuid, sv, db.memberMap, db.cfgMap, k);
    NoIPsAdded(db.ipMap, uuid);
    VolumesStay(p, uuid, sv, ms0, vols0, claims0);
    n := k;
    var members := db.ListServiceMembers(uuid);
    if members.None? {
      return false, n;
    }
    HeldListing(p, uuid, sv, refs, db.Contents(), k, members.value);
    var pools: Pools := map[];
    if requireStaticIP {
      ghost var t := db.Contents();
      ListedEnough(p, uuid, ms0, db.ipMap, nets0, server.subnets.Keys, members.value);
      var created := CreateStaticIPs(db, server, uuid, configs, members.value);
      IPsFor(p, uuid, sv, refs, t, k, db.ipMap);
      if isNew { FreshIPs(p, uuid, sv, before, t, k, db.ipMap); }
      PlacesAfterIPs(requireStaticIP, uuid, ms0, nets0, server.nets);
      if created.None? {
        return false, n;
      }
      pools := created.value;
      ServerNets(server);
      HeldPools(p, uuid, sv, refs, db.Contents(), k, members.value, server.nets, pools);
      CreatedInZones(db.ipMap, server.nets, uuid, TakenIPs(members.value), pools);
    }
    var allMembers := if |members.value| > replicas then members.value[..replicas] else members.value;
    FirstMembers(db.memberMap, uuid, members.value, replicas);
    ghost var ips := db.ipMap;
    var i := |members.value|;
    while i < replicas
      invariant i == n && k <= n && (n > k ==> n <= replicas)
      invariant db.Valid() && server.Valid() && cloud.Valid()
      invariant db.Contents() == old(db.Contents()).(members := db.memberMap, configs := db.cfgMap, ips := db.ipMap)
      invariant db.ipMap == ips
      invariant HasMembers(p, uuid, sv, refs, db.Contents(), n)
      invariant MembersAdded(p, uuid, sv, ms0, k, db.memberMap, n) && FilesWritten(p, uuid, old(db.cfgMap), k, db.cfgMap, n)
      invariant Hashed(md5, old(db.cfgMap)) ==> Hashed(md5, db.cfgMap)
      invariant isNew ==> Fresh(p, uuid, sv, before, db.Contents(), n) && Grown(old(db.cfgMap), db.cfgMap)
      invariant requireStaticIP ==> PoolsLeft(p, uuid, db.memberMap, db.ipMap, n, pools) && PoolsInZones(server.nets, pools)
      invariant KeepsVolumes(p, uuid, sv, ms0, vols0, claims0, db.memberMap, cloud.volumes, cloud.claims)
      invariant StoredMembers(db.memberMap, uuid, allMembers) && (n <= replicas ==> ListsMembers(db.memberMap, uuid, allMembers))
      invariant KeepsPlaces(requireStaticIP, uuid, ms0, nets0, db.memberMap, server.nets)
    {
      var replicaCfg := configs[i];
      var hostIP := DEFAULT_HOST_IP;
      ghost var pools0 := pools;
      if requireStaticIP {
        FirstIsFree(p, uuid, db.memberMap, db.ipMap, n, pools);
        // neither internal error for a missing address can happen here
        if replicaCfg.zone !in pools || |pools[replicaCfg.zone]| == 0 {
          assert false;
        }
        hostIP := pools[replicaCfg.zone][0].staticIP;
        PoppedInZones(server.nets, pools, replicaCfg.zone);
        pools := pools[replicaCfg.zone := pools[replicaCfg.zone][1..]];
      }
      ghost var t, vols, claims := db.Contents(), cloud.volumes, cloud.claims;
      var created, m := CreateNext(db, cloud, md5, service, uuid, sv, replicaCfg, hostIP, p, refs, isNew, before, i);
      GrownTwice(old(db.cfgMap), t.configs, db.cfgMap);
      WrittenNext(p, uuid, old(db.cfgMap), k, t.configs, n, db.cfgMap, if m.None? then n else n + 1);
      KeepsVolumesTwice(p, uuid, sv, ms0, vols0, claims0, t.members, vols, claims, db.memberMap, cloud.volumes, cloud.claims);
      if m.Some? {
        if requireStaticIP { TakeIP(p, uuid, t.members, t.ips, n, pools0, m.value); }
        PlacesNext(p, uuid, sv, ms0, nets0, t.members, server.nets, n, pools0, m.value);
        AddedNext(p, uuid, sv, ms0, k, t.members, n, m.value);
        AddedStored(p, uuid, sv, t.members, n, m.value, allMembers);
        n := n + 1;
      }
      if created.None? {
        return false, n;
      }
      allMembers := allMembers + [created.value];
      i := i + 1;
    }
    ok := true;
    if serviceType != STATELESS {
      AllCreated(p, uuid, sv, ms0, vols0, claims0, db.memberMap, cloud.volumes, cloud.claims, allMembers);
      ok := WaitForVolumes(cloud, allMembers);
      if ok && n == replicas { AllWaitedFor(db.memberMap, uuid, allMembers, cloud.volumes); }
    }
  }

  lemma AllCreated(p: Plan, uuid: string, sv: ServiceVolumes, ms0: map<Key, ServiceMember>, vols0: map<string, Volume>,
                   claims0: map<Claim, string>, ms: map<Key, ServiceMember>, vols: map<string, Volume>, claims: map<Claim, string>,
                   members: seq<ServiceMember>)
    requires KeepsVolumes(p, uuid, sv, ms0, vols0, claims0, ms, vols, claims) && StoredMembers(ms, uuid, members)
    ensures AllBacked(p, uuid, sv, ms0, vols0, claims0) ==> forall i :: 0 <= i < |members| ==> HasVolumes(members[i].spec.volumes, vols)
  {
    hide AllBacked, VolumesLater, StoredMembers, HasVolumes;
    if AllBacked(p, uuid, sv, ms0, vols0, claims0) { BackedHaveVolumes(p, uuid, sv, ms, vols, claims, members); }
  }

  lemma VolumesLaterStill(p: Plan, uuid: string, ms: map<Key, ServiceMember>, vols: map<string, Volume>, claims: map<Claim, string>,
                          ms1: map<Key, ServiceMember>, vols1: map<string, Volume>, claims1: map<Claim, string>,
                          ms2: map<Key, ServiceMember>, vols2: map<string, Volume>, claims2: map<Claim, string>)
    requires VolumesLater(p, uuid, ms, vols, claims, ms1, vols1, claims1) && VolumesLater(p, uuid, ms1, vols1, claims1, ms2, vols2, claims2)
    ensures VolumesLater(p, uuid, ms, vols, claims, ms2, vols2, claims2)
  {
    Vol.VolumesGrowTwice(p.service, uuid, ms, vols, claims, ms1, vols1, claims1, ms2, vols2, claims2);
  }

  lemma AddedStored(p: Plan, uuid: string, sv: ServiceVolumes, ms: map<Key, ServiceMember>, n: nat, m: ServiceMember,
                    members: seq<ServiceMember>)
    requires n < |p.replicas| && IsMember(p, uuid, sv, n, m) && MemberKey(p, uuid, n) !in ms && StoredMembers(ms, uuid, members)
    ensures StoredMembers(ms[MemberKey(p, uuid, n) := m], uuid, members + [m])
    ensures ListsMembers(ms, uuid, members) ==> ListsMembers(ms[MemberKey(p, uuid, n) := m], uuid, members + [m])
  {
    hide ListsMembers, StoredMembers;
    assert (uuid, m.memberName) == MemberKey(p, uuid, n);
    StoredNext(ms, uuid, members, m);
    if ListsMembers(ms, uuid, members) { ListsNext(ms, uuid, members, m); }
  }

  lemma NoIPsAdded(ips: map<IP, ServiceStaticIP>, uuid: string)
    ensures IPsAdded(ips, ips, uuid)
  {
  }

  lemma HeldListing(p: Plan, uuid: string, sv: ServiceVolumes, refs: seq<ConfigID>, t: Tables, k: nat, ms: seq<ServiceMember>)
    requires ValidPlan(p) && HasMembers(p, uuid, sv, refs, t, k) && ListsMembers(t.members, uuid, ms)
    ensures |ms| == k && WellKeyed(t.ips)
    ensures p.requireStaticIP ==> forall a :: 0 <= a < |ms| ==> ms[a].spec.staticIP in t.ips
  {
    hide RefsOK, WellKeyed;
    ListingSize(p, uuid, sv, t.members, k, ms);
    if p.requireStaticIP {
      forall a | 0 <= a < |ms| ensures ms[a].spec.staticIP in t.ips {
        var i := ListedHasIndex(p, uuid, sv, t.members, k, ms, a);
        assert IPOf(p, uuid, t.members, i) in t.ips;
      }
    }
  }

  lemma HeldPools(p: Plan, uuid: string, sv: ServiceVolumes, refs: seq<ConfigID>, t: Tables, k: nat, ms: seq<ServiceMember>,
                  nets: Nets, pools: Pools)
    requires ValidPlan(p) && HasMembers(p, uuid, sv, refs, t, k) && ListsMembers(t.members, uuid, ms)
    requires NetsOK(nets) && PoolsOK(t.ips, nets, uuid, TakenIPs(ms), pools)
    requires forall z :: z in pools <==> z in ConfigZones(p.replicas)
    requires forall z :: z in pools ==> |pools[z]| >= Pending(p.replicas, ms, z)
    ensures PoolsLeft(p, uuid, t.members, t.ips, k, pools)
  {
    hide RefsOK, MembersOf, IPsOK, ListsMembers, PoolsOK, NetsOK, PoolsLeft, ValidPlan;
    PoolsFromListing(p, uuid, sv, t.members, t.ips, k, ms, nets, pools);
  }

  lemma ServerNets(server: Server)
    requires server.Valid()
    ensures NetsOK(server.nets)
  {
  }
}
