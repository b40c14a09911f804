/**
 Service creation that survives crashes (CreateService, createService, checkAndCreateServiceAttr and
 SetServiceInitialized in pkg/managesvc/service.go). An attempt may stop after any database operation;
 any number of attempts with the same request may follow. Nobody else changes the database meanwhile:
 the interleavings are in DeviceRuns, MemberRuns, Lifecycle and ConfigUpdates.
 */
module Creation {
  import opened Text
  import opened NextIP
  import opened Records
  import opened Store
  import opened StaticIPs
  import opened ConfigFiles
  import opened Members
  import opened Cloud
  import ConfigFileIDs
  import Devices
  import V = ServiceDevices

  datatype Request = Request(
    cluster: string, service: string, region: string, serviceType: string, catalogServiceType: string,
    replicas: int, volume: ServiceVolume, journalVolume: Option<ServiceVolume>, resource: Resources,
    registerDNS: bool, requireStaticIP: bool, serviceConfigs: seq<ConfigFileContent>,
    replicaConfigs: seq<ReplicaConfig>)

  /** A request, what the DNS service answers for it, and the checksum function. */
  datatype Job = Job(req: Request, domainName: string, hostedZoneID: string, md5: string -> string)

  datatype Error = InvalidArgs | ServiceExist | ServiceDeleting | ServiceDeleted | DBFailed

  datatype Result = Ok(uuid: string) | Err(error: Error)

  // ---------------------------------------------------------------- what a creation writes

  function PlanOf(j: Job): Plan {
    Plan(j.req.service, j.req.serviceConfigs, j.req.replicaConfigs, j.req.requireStaticIP, j.md5)
  }

  const NO_VOLUMES := ServiceVolumes("", V.NO_VOLUME, "", V.NO_VOLUME)

  /** The number of devices a creation takes. */
  function Wanted(req: Request): nat { if req.serviceType == STATELESS then 0 else V.Wanted(req.journalVolume) }

  /** The volumes of a service whose creation found these devices. */
  ghost function VolumesOf(req: Request, devices: Devices.Table): ServiceVolumes {
    if req.serviceType == STATELESS then NO_VOLUMES else V.VolumesAt(devices, req.service, req.volume, req.journalVolume)
  }

  /** The attr of the service, new or later. */
  function AttrOf(j: Job, uuid: string, sv: ServiceVolumes, status: Status, revision: int, now: int): ServiceAttr {
    ServiceAttr(uuid, revision,
      ServiceMeta(j.req.cluster, j.req.service, now, j.req.serviceType, status),
      ServiceSpec(j.req.replicas, j.req.resource, j.req.registerDNS, j.domainName, j.hostedZoneID, j.req.requireStaticIP,
                  IDsOf(j.md5, j.req.service, j.req.serviceConfigs), j.req.catalogServiceType, sv))
  }

  function RevisionOf(status: Status): int {
    match status case Creating => 0 case Initializing => 1 case _ => 2
  }

  /** The stored attr is the creation's, in one of the states CREATING, INITIALIZING and ACTIVE. */
  predicate IsAttr(j: Job, uuid: string, sv: ServiceVolumes, a: ServiceAttr) {
    && a.meta.serviceStatus in {Creating, Initializing, Active}
    && a == AttrOf(j, uuid, sv, a.meta.serviceStatus, RevisionOf(a.meta.serviceStatus), a.meta.lastModified)
  }

  // ---------------------------------------------------------------- after any number of attempts

  /** Members and config files can be told apart, and a stateless service comes with a config for each replica, too. */
  ghost predicate ValidJob(j: Job) {
    && ValidPlan(PlanOf(j))
    && (j.req.serviceType == STATELESS ==> 0 <= j.req.replicas <= |j.req.replicaConfigs|)
  }

  /** Before the first attempt nothing of the service is there but devices that a deletion left. */
  ghost predicate NewService(j: Job, base: Tables) {
    j.req.service !in base.services && V.NewName(base.devices, j.req.service)
  }

  /** A UUID that nothing in the database uses. */
  ghost predicate NewUUID(uuid: string, base: Tables) {
    uuid !in base.attrs && Members.Unused(uuid, base)
  }

  /** With an attr there are all devices, the service's files and the first k members. */
  ghost predicate WithAttr(j: Job, uuid: string, base: Tables, t: Tables, k: nat) {
    var sv := VolumesOf(j.req, base.devices);
    && uuid in t.attrs && t.attrs == base.attrs[uuid := t.attrs[uuid]] && IsAttr(j, uuid, sv, t.attrs[uuid])
    && FilesOf(PlanOf(j), uuid, 0, t.configs)
    && Made(PlanOf(j), uuid, sv, base, t, k) && k <= j.req.replicas
    && (t.attrs[uuid].meta.serviceStatus != Creating ==> k == j.req.replicas)
  }

  /** Without an attr there is nothing but devices, the service and some of its files. */
  ghost predicate WithoutAttr(j: Job, uuid: string, base: Tables, t: Tables) {
    && t.attrs == base.attrs && t.members == base.members && t.ips == base.ips
    && FilesOK(PlanOf(j), uuid, base.configs, t.configs, 0)
  }

  ghost predicate WithService(j: Job, base: Tables, t: Tables) {
    && j.req.service in t.services
    && var uuid := t.services[j.req.service];
       && t.services == base.services[j.req.service := uuid] && NewUUID(uuid, base)
       && V.HasDevices(base.devices, j.req.service, Wanted(j.req), t.devices)
       && (WithoutAttr(j, uuid, base, t) || exists k: nat :: WithAttr(j, uuid, base, t, k))
  }

  ghost predicate OnlyDevices(j: Job, base: Tables, t: Tables) {
    t == base.(devices := t.devices) && exists k: nat :: k <= Wanted(j.req) && V.HasDevices(base.devices, j.req.service, k, t.devices)
  }

  /** What any number of interrupted attempts may have left. */
  ghost predicate Partial(j: Job, base: Tables, t: Tables) {
    OnlyDevices(j, base, t) || WithService(j, base, t)
  }

  /** What a creation that succeeded leaves. */
  ghost predicate Complete(j: Job, base: Tables, t: Tables) {
    && WithService(j, base, t)
    && t.services[j.req.service] in t.attrs
    && t.services[j.req.service] !in base.attrs
    && t.attrs[t.services[j.req.service]].meta.serviceStatus != Creating
  }

  /** Where the attempts start: a database without the service is one that they may leave. */
  lemma NothingIsPartial(j: Job, base: Tables)
    requires NewService(j, base)
    ensures Partial(j, base, base)
  {
    assert V.HasDevices(base.devices, j.req.service, 0, base.devices);
  }

  // ---------------------------------------------------------------- what each step keeps

  lemma AfterDevices(j: Job, base: Tables, t: Tables, t': Tables, k: nat, n: nat)
    requires Partial(j, base, t) && t' == t.(devices := t'.devices) && k <= n <= Wanted(j.req)
    requires V.HasDevices(base.devices, j.req.service, k, t.devices) && V.HasDevices(base.devices, j.req.service, n, t'.devices)
    requires WithService(j, base, t) ==> k == Wanted(j.req)
    ensures Partial(j, base, t')
    ensures WithService(j, base, t) ==> t' == t
  {
    hide V.WithDevices, WithAttr, WithoutAttr, NewUUID;
  }

  lemma AfterService(j: Job, base: Tables, t: Tables, t': Tables, uuid: string, lossy: bool, err: Option<DBError>)
    requires NewService(j, base) && NewUUID(uuid, base) && Partial(j, base, t)
    requires V.HasDevices(base.devices, j.req.service, Wanted(j.req), t.devices)
    requires t' == t.(services := t'.services) && Create(lossy, t.services, j.req.service, uuid, t'.services, err)
    ensures Partial(j, base, t')
    ensures j.req.service in t'.services ==> WithService(j, base, t')
    ensures err.None? ==> j.req.service in t'.services && t'.services[j.req.service] == uuid
    ensures err == Some(ConditionalCheckFailed) ==> j.req.service in t.services && t' == t
    ensures WithService(j, base, t) ==> t' == t && err.Some?
    ensures j.req.service !in t.services ==> uuid !in t.attrs
  {
    hide V.HasDevices, WithAttr;
    if j.req.service !in t.services && t'.services != t.services {
      assert WithoutAttr(j, uuid, base, t');
    }
  }

  /** The service exists and has this UUID. */
  ghost predicate At(j: Job, base: Tables, t: Tables, uuid: string) {
    WithService(j, base, t) && t.services[j.req.service] == uuid
  }

  lemma AfterFiles(j: Job, base: Tables, t: Tables, t': Tables, uuid: string, m: nat)
    requires At(j, base, t, uuid) && t' == t.(configs := t'.configs) && (WithoutAttr(j, uuid, base, t) ==> m == 0)
    requires Grown(t.configs, t'.configs) && FilesOK(PlanOf(j), uuid, base.configs, t'.configs, m)
    requires FilesOf(PlanOf(j), uuid, 0, t.configs) ==> t'.configs == t.configs
    ensures At(j, base, t', uuid)
    ensures uuid in t.attrs ==> t' == t
  {
    hide V.HasDevices, Grown, FilesOK, FilesOf, Made;
    if !WithoutAttr(j, uuid, base, t) {
      var k: nat :| WithAttr(j, uuid, base, t, k);
      assert t' == t;
    } else {
      hide WithAttr;
      assert WithoutAttr(j, uuid, base, t');
    }
  }

  /** The first attempt that gets here stores the attr, at CREATING. */
  lemma AfterAttr(j: Job, base: Tables, t: Tables, t': Tables, uuid: string, a: ServiceAttr, lossy: bool, err: Option<DBError>)
    requires ValidJob(j) && j.req.replicas >= 0 && At(j, base, t, uuid) && t' == t.(attrs := t'.attrs)
    requires a == AttrOf(j, uuid, VolumesOf(j.req, base.devices), Creating, 0, a.meta.lastModified)
    requires Create(lossy, t.attrs, uuid, a, t'.attrs, err) && FilesOf(PlanOf(j), uuid, 0, t.configs)
    ensures At(j, base, t', uuid)
    ensures err.None? ==> WithAttr(j, uuid, base, t', 0) && uuid in t'.attrs && t'.attrs[uuid] == a
    ensures err == Some(ConditionalCheckFailed) ==> uuid in t.attrs && t' == t
    ensures uuid in t.attrs ==> t' == t && err.Some?
  {
    hide V.HasDevices, FilesOf, VolumesOf;
    if uuid !in t.attrs && t'.attrs != t.attrs {
      NothingMade(j, base, t, uuid);
      hide Made, FilesOK, NewUUID;
      assert WithAttr(j, uuid, base, t', 0);
    }
  }

  lemma NothingMade(j: Job, base: Tables, t: Tables, uuid: string)
    requires At(j, base, t, uuid) && uuid !in t.attrs
    ensures WithoutAttr(j, uuid, base, t)
    ensures Made(PlanOf(j), uuid, VolumesOf(j.req, base.devices), base, t, 0)
  {
    hide V.HasDevices, FilesOf, FilesOK, VolumesOf, NoMembers, NoFiles;
    MoreOwners(PlanOf(j), uuid, base.configs, t.configs, 0, 1);
  }

  /** A stored attr is the creation's own: an identical request is recognised. */
  lemma AttrIsOwn(j: Job, base: Tables, t: Tables, uuid: string) returns (k: nat)
    requires At(j, base, t, uuid) && uuid in t.attrs
    ensures WithAttr(j, uuid, base, t, k) && IsAttr(j, uuid, VolumesOf(j.req, base.devices), t.attrs[uuid])
    ensures t.attrs[uuid].meta.serviceStatus != Creating ==> Complete(j, base, t)
  {
    hide V.HasDevices, Made, FilesOf, FilesOK, VolumesOf, IsAttr;
    assert !WithoutAttr(j, uuid, base, t);
    var n: nat :| WithAttr(j, uuid, base, t, n);
    k := n;
  }

  lemma AfterMembers(j: Job, base: Tables, t: Tables, t': Tables, uuid: string, k: nat, n: nat)
    requires At(j, base, t, uuid) && WithAttr(j, uuid, base, t, k) && t.attrs[uuid].meta.serviceStatus == Creating
    requires t' == t.(members := t'.members, configs := t'.configs, ips := t'.ips) && Grown(t.configs, t'.configs)
    requires Fresh(PlanOf(j), uuid, VolumesOf(j.req, base.devices), base, t', n) && k <= n && (n > k ==> n <= j.req.replicas)
    ensures At(j, base, t', uuid) && WithAttr(j, uuid, base, t', n)
  {
    hide V.HasDevices, Made, FilesOK, VolumesOf, IsAttr, FilesOf, Grown, NewUUID;
    FilesStay(PlanOf(j), uuid, 0, t.configs, t'.configs);
    assert WithAttr(j, uuid, base, t', n);
  }

  /** The status moves on when every member is there. */
  lemma AfterStatus(j: Job, base: Tables, t: Tables, t': Tables, uuid: string, k: nat, status: Status, now: int)
    requires At(j, base, t, uuid) && WithAttr(j, uuid, base, t, k) && k == j.req.replicas
    requires (t.attrs[uuid].meta.serviceStatus, status) in {(Creating, Initializing), (Initializing, Active)}
    requires t' == t || t' == t.(attrs := t.attrs[uuid := UpdateServiceStatus(t.attrs[uuid], status, now)])
    ensures At(j, base, t', uuid)
    ensures t' != t ==> Complete(j, base, t')
  {
    hide V.HasDevices, Made, FilesOK, VolumesOf, FilesOf, NewUUID;
    assert NewUUID(uuid, base) ==> uuid !in base.attrs by { NewHasNoAttr(uuid, base); }
    if t' != t {
      assert IsAttr(j, uuid, VolumesOf(j.req, base.devices), t'.attrs[uuid]);
      MadeElsewhere(PlanOf(j), uuid, VolumesOf(j.req, base.devices), base, t, t', k);
      assert WithAttr(j, uuid, base, t', k);
    }
  }

  lemma NewHasNoAttr(uuid: string, base: Tables)
    ensures NewUUID(uuid, base) ==> uuid !in base.attrs
  {
  }

  // ---------------------------------------------------------------- the methods

  /** The UUID that a creation goes on with. */
  function UUIDFor(t: Tables, service: string, newUUID: string): string {
    if service in t.services then t.services[service] else newUUID
  }

  /** A new UUID is stored for the name, or the stored one is found. */
  method CreateServiceItem(db: DB, service: string, newUUID: string, ghost j: Job, ghost base: Tables) returns (r: Option<string>)
    requires db.Valid() && service == j.req.service && NewService(j, base) && NewUUID(newUUID, base)
    requires Partial(j, base, db.Contents()) && V.HasDevices(base.devices, service, Wanted(j.req), db.devMap)
    modifies db
    ensures db.Valid() && db.Contents() == old(db.Contents()).(services := db.svcMap) && Partial(j, base, db.Contents())
    ensures r.Some? ==> At(j, base, db.Contents(), r.value)
    ensures r.Some? ==> r.value == UUIDFor(old(db.Contents()), service, newUUID)
    ensures r.Some? && service !in old(db.svcMap) ==> r.value !in db.svcAttrMap
    ensures db.reliable ==> r.Some?
    ensures WithService(j, base, old(db.Contents())) ==> db.Contents() == old(db.Contents())
  {
    hide Partial, WithService, NewService, NewUUID, V.HasDevices;
    ghost var t := db.Contents();
    var err := db.CreateService(service, newUUID);
    AfterService(j, base, t, db.Contents(), newUUID, db.lossy, err);
    if err.None? {
      return Some(newUUID);
    }
    if err != Some(ConditionalCheckFailed) {
      return None;
    }
    var currItem := db.GetService(service);
    r := if currItem.Got? then Some(currItem.value) else None;
  }

  datatype AttrResult = Continue(attr: ServiceAttr) | AlreadyCreated | Failed(error: Error)

  /** The stored attr is the request's in all but status, revision and time. */
  predicate SameRequest(j: Job, uuid: string, sv: ServiceVolumes, stored: ServiceAttr) {
    && stored.serviceUUID == uuid
    && stored.meta.clusterName == j.req.cluster && stored.meta.serviceName == j.req.service
    && stored.meta.serviceType == j.req.serviceType
    && stored.spec.replicas == j.req.replicas && stored.spec.resource == j.req.resource
    && stored.spec.registerDNS == j.req.registerDNS && stored.spec.domainName == j.domainName
    && stored.spec.hostedZoneID == j.hostedZoneID && stored.spec.requireStaticIP == j.req.requireStaticIP
    && stored.spec.serviceConfigs == IDsOf(j.md5, j.req.service, j.req.serviceConfigs)
    && stored.spec.catalogServiceType == j.req.catalogServiceType && stored.spec.volumes == sv
  }

  /** What the request for the attr comes to, whatever is stored. */
  predicate AttrOutcome(j: Job, uuid: string, sv: ServiceVolumes, stored: Option<ServiceAttr>, r: AttrResult) {
    match stored
    case None => r.Continue?
    case Some(a) =>
      if !SameRequest(j, uuid, sv, a) then r == Failed(ServiceExist)
      else match a.meta.serviceStatus
        case Creating => r == Continue(a)
        case Initializing => r == AlreadyCreated
        case Active => r == AlreadyCreated
        case Deleting => r == Failed(ServiceDeleting)
        case Deleted => r == Failed(ServiceDeleted)
  }

  /**
   The service's config files and its attr. A stored attr is not written: a request that differs from it
   is refused, and so is one for a service that is being deleted. An attempt at the creation `isMine`
   is never taken for another's.
   */
  method CheckAndCreateServiceAttr(db: DB, uuid: string, sv: ServiceVolumes, j: Job, ghost isMine: bool, ghost base: Tables)
    returns (r: AttrResult, ghost k: nat)
    requires db.Valid() && ValidJob(j)
    requires isMine ==> j.req.replicas >= 0 && sv == VolumesOf(j.req, base.devices) && At(j, base, db.Contents(), uuid)
    modifies db
    ensures db.Valid() && db.Contents() == old(db.Contents()).(configs := db.cfgMap, attrs := db.svcAttrMap)
    ensures OnlyOwn(j.md5, uuid, j.req.service, j.req.serviceConfigs, old(db.cfgMap), db.cfgMap)
    ensures uuid in old(db.svcAttrMap) ==> db.svcAttrMap == old(db.svcAttrMap)
    ensures uuid !in old(db.svcAttrMap) ==>
              db.svcAttrMap == old(db.svcAttrMap) ||
              (uuid in db.svcAttrMap && db.svcAttrMap == old(db.svcAttrMap)[uuid := db.svcAttrMap[uuid]]
               && SameRequest(j, uuid, sv, db.svcAttrMap[uuid])
               && db.svcAttrMap[uuid].revision == 0 && db.svcAttrMap[uuid].meta.serviceStatus == Creating)
    ensures r.Continue? ==> uuid in db.svcAttrMap && r.attr == db.svcAttrMap[uuid] && r.attr.meta.serviceStatus == Creating
    ensures r.AlreadyCreated? ==> uuid in old(db.svcAttrMap)
    ensures r != Failed(DBFailed) ==>
              AttrOutcome(j, uuid, sv, if uuid in old(db.svcAttrMap) then Some(old(db.svcAttrMap)[uuid]) else None, r)
    ensures db.reliable ==> r != Failed(DBFailed)
    ensures Hashed(j.md5, old(db.cfgMap)) ==> Hashed(j.md5, db.cfgMap)
    ensures isMine ==> At(j, base, db.Contents(), uuid)
    ensures isMine && uuid in old(db.svcAttrMap) ==> db.Contents() == old(db.Contents())
    ensures isMine && r.AlreadyCreated? ==> Complete(j, base, db.Contents())
    ensures isMine && r.Continue? ==> r.attr.serviceUUID == uuid && WithAttr(j, uuid, base, db.Contents(), k)
    ensures isMine && r.Failed? ==> r.error == DBFailed
  {
    hide At, WithAttr, Complete, FilesOK, FilesOf, ValidPlan, NoFiles, VolumesOf, Made, OnlyOwn, Hashed, NewContents, IDsOf;
    k := 0;
    ghost var t := db.Contents();
    ghost var m := 0;
    if isMine { m := FilesAreFine(j, base, t, uuid); }
    var cfgs := CreateFilesOf(db, PlanOf(j), j.md5, uuid, 0, j.req.service, j.req.serviceConfigs, isMine, base.configs, m);
    if isMine { AfterFiles(j, base, t, db.Contents(), uuid, m); }
    if cfgs.None? {
      return Failed(DBFailed), k;
    }
    var now := *;
    var meta := ServiceMeta(j.req.cluster, j.req.service, now, j.req.serviceType, Creating);
    var spec := ServiceSpec(j.req.replicas, j.req.resource, j.req.registerDNS, j.domainName, j.hostedZoneID,
                            j.req.requireStaticIP, cfgs.value, j.req.catalogServiceType, sv);
    var serviceAttr := ServiceAttr(uuid, 0, meta, spec);
    t := db.Contents();
    var err := db.CreateServiceAttr(serviceAttr);
    if isMine { AfterAttr(j, base, t, db.Contents(), uuid, serviceAttr, db.lossy, err); }
    if err.None? {
      return Continue(serviceAttr), 0;
    }
    if err != Some(ConditionalCheckFailed) {
      return Failed(DBFailed), k;
    }
    var got := db.GetServiceAttr(uuid);
    if got.Error? {
      return Failed(DBFailed), k;
    }
    var sattr := got.value;
    if isMine { k := AttrIsOwn(j, base, db.Contents(), uuid); }
    if !EqualServiceAttr(serviceAttr.(meta := serviceAttr.meta.(serviceStatus := sattr.meta.serviceStatus)), sattr) {
      return Failed(ServiceExist), k;
    }
    match sattr.meta.serviceStatus {
      case Creating => r := Continue(sattr);
      case Initializing => r := AlreadyCreated;
      case Active => r := AlreadyCreated;
      case Deleting => r := Failed(ServiceDeleting);
      case Deleted => r := Failed(ServiceDeleted);
    }
  }

  lemma FilesAreFine(j: Job, base: Tables, t: Tables, uuid: string) returns (m: nat)
    requires ValidJob(j) && At(j, base, t, uuid)
    ensures ValidPlan(PlanOf(j)) && NoFiles(uuid, base.configs) && FilesOK(PlanOf(j), uuid, base.configs, t.configs, m)
    ensures WithoutAttr(j, uuid, base, t) ==> m == 0
  {
    hide V.HasDevices, FilesOK, FilesOf, VolumesOf, IsAttr, MembersOK, IPsOK, ValidPlan, NoFiles, NoMembers, WellKeyed;
    if WithoutAttr(j, uuid, base, t) {
      m := 0;
    } else {
      var k: nat :| WithAttr(j, uuid, base, t, k);
      m := k + 1;
    }
  }

  predicate ValidArgs(req: Request, vpcID: string) {
    && req.cluster != "" && req.service != "" && req.region != "" && vpcID != ""
    && (req.serviceType != STATELESS ==>
          req.replicas > 0 && req.volume.volumeSizeGB > 0 && |req.replicaConfigs| == req.replicas)
  }

  /** There is a device left for each that the creation needs. */
  ghost predicate DevicesLeft(req: Request, devices: Devices.Table) {
    req.serviceType != STATELESS ==>
      V.Primary(devices, req.service) != "" && (req.journalVolume.Some? ==> V.Journal(devices, req.service) != "")
  }

  /** The members, and the status that says they are there. */
  method FinishCreation(db: DB, server: Server, cloud: Platform, j: Job, serviceAttr: ServiceAttr, uuid: string, svols: ServiceVolumes,
                        ghost base: Tables, ghost k: nat)
    returns (r: Result)
    requires db.Valid() && server.Valid() && cloud.Valid() && ValidJob(j) && 0 <= j.req.replicas <= |j.req.replicaConfigs|
    requires At(j, base, db.Contents(), uuid) && WithAttr(j, uuid, base, db.Contents(), k)
    requires uuid in db.svcAttrMap && db.svcAttrMap[uuid] == serviceAttr
    requires serviceAttr.meta.serviceStatus == Creating && serviceAttr.serviceUUID == uuid
    requires svols == VolumesOf(j.req, base.devices)
    requires forall z :: z in server.nets ==> server.nets[z] != []
    modifies db, server, cloud`volumes, cloud`claims
    ensures db.Valid() && server.Valid() && cloud.Valid()
    ensures Partial(j, base, db.Contents()) && db.svcMap == old(db.svcMap)
    ensures r == Ok(uuid) || r == Err(DBFailed)
    ensures r.Ok? ==> Complete(j, base, db.Contents()) && StatusIs(db.Contents(), uuid, Initializing)
    ensures Hashed(j.md5, old(db.cfgMap)) ==> Hashed(j.md5, db.cfgMap)
    ensures KeepsVolumes(PlanOf(j), uuid, svols, old(db.memberMap), old(cloud.volumes), old(cloud.claims),
                         db.memberMap, cloud.volumes, cloud.claims)
    ensures KeepsPlaces(j.req.requireStaticIP, uuid, old(db.memberMap), old(server.nets), db.memberMap, server.nets)
    ensures (db.reliable && cloud.reliable && server.reliable
             && AllBacked(PlanOf(j), uuid, svols, old(db.memberMap), old(cloud.volumes), old(cloud.claims))
             && AddressesThere(PlanOf(j), uuid, old(db.memberMap), old(db.ipMap), old(server.nets), server.subnets.Keys)) ==> r.Ok?
  {
    hide Partial, WithService, WithAttr, At, NetsOK, VolumesOf, Fresh, HasMembers, ValidPlan, Complete, IsMember, IDsOf;
    hide MembersAdded, FilesWritten, IPsAdded, Grown, Hashed, KeepsVolumes, KeepsPlaces, AllBacked, AddressesThere;
    var req := j.req;
    ghost var t := db.Contents();
    MadeSoFar(j, base, t, uuid, k);
    ghost var refs := IDsOf(j.md5, req.service, req.serviceConfigs);
    var ok, n := CheckAndCreateServiceMembers(db, server, cloud, j.md5, req.replicas, req.service, uuid, req.serviceType,
                                              req.requireStaticIP, svols, req.replicaConfigs, PlanOf(j), refs, k, true, base);
    AfterMembers(j, base, t, db.Contents(), uuid, k, n);
    PartialAt(j, base, t, db.Contents(), uuid);
    if !ok {
      return Err(DBFailed);
    }
    var now := *;
    var newAttr := UpdateServiceStatus(serviceAttr, Initializing, now);
    t := db.Contents();
    var err := db.UpdateServiceAttr(serviceAttr, newAttr);
    AfterUpdate(j, base, t, db.Contents(), uuid, n, Initializing, now, db.lossy, err);
    r := if err.None? then Ok(uuid) else Err(DBFailed);
  }

  predicate StatusIs(t: Tables, uuid: string, status: Status) {
    uuid in t.attrs && t.attrs[uuid].meta.serviceStatus == status
  }

  /**
   One attempt. Whatever the attempts before it left, and wherever it stops, the database holds a
   part of one creation; when an attempt succeeds, it holds all of it; after that nothing changes.
   No attempt takes its own earlier work for another service's.
   */
  method CreateService(db: DB, server: Server, cloud: Platform, j: Job, vpcID: string, newUUID: string, ghost base: Tables) returns (r: Result)
    requires db.Valid() && server.Valid() && cloud.Valid() && ValidJob(j) && NewService(j, base) && NewUUID(newUUID, base)
    requires Partial(j, base, db.Contents())
    requires forall z :: z in server.nets ==> server.nets[z] != []
    modifies db, server, cloud`volumes, cloud`claims
    ensures db.Valid() && server.Valid() && cloud.Valid()
    ensures Partial(j, base, db.Contents())
    ensures r.Ok? ==> Complete(j, base, db.Contents()) && db.Contents().services[j.req.service] == r.uuid
    ensures r.Ok? && !Complete(j, base, old(db.Contents())) ==> StatusIs(db.Contents(), r.uuid, Initializing)
    ensures j.req.service in old(db.svcMap) ==> db.svcMap == old(db.svcMap)
    ensures Complete(j, base, old(db.Contents())) ==> db.Contents() == old(db.Contents())
    ensures r.Err? ==> r.error == if ValidArgs(j.req, vpcID) then DBFailed else InvalidArgs
    ensures !ValidArgs(j.req, vpcID) ==> r.Err? && db.Contents() == old(db.Contents())
    ensures Hashed(j.md5, old(db.cfgMap)) ==> Hashed(j.md5, db.cfgMap)
    ensures KeepsVolumes(PlanOf(j), UUIDFor(old(db.Contents()), j.req.service, newUUID), VolumesOf(j.req, base.devices),
                         old(db.memberMap), old(cloud.volumes), old(cloud.claims), db.memberMap, cloud.volumes, cloud.claims)
    ensures KeepsPlaces(j.req.requireStaticIP, UUIDFor(old(db.Contents()), j.req.service, newUUID),
                        old(db.memberMap), old(server.nets), db.memberMap, server.nets)
    ensures (db.reliable && cloud.reliable && server.reliable && ValidArgs(j.req, vpcID) && DevicesLeft(j.req, base.devices)
             && AllBacked(PlanOf(j), UUIDFor(old(db.Contents()), j.req.service, newUUID), VolumesOf(j.req, base.devices),
                          old(db.memberMap), old(cloud.volumes), old(cloud.claims))
             && AddressesThere(PlanOf(j), UUIDFor(old(db.Contents()), j.req.service, newUUID), old(db.memberMap), old(db.ipMap),
                               old(server.nets), server.subnets.Keys)) ==> r.Ok?
  {
    hide Partial, WithService, WithAttr, NewService, NewUUID, V.HasDevices, V.NewName, NetsOK, VolumesOf, Made, ValidPlan;
    hide Hashed, KeepsVolumes, KeepsPlaces, AllBacked, AddressesThere, OnlyOwn, Complete, SameRequest, AttrOutcome;
    var req := j.req;
    ghost var u, sv := UUIDFor(db.Contents(), req.service, newUUID), VolumesOf(req, base.devices);
    VolumesStay(PlanOf(j), u, sv, db.memberMap, cloud.volumes, cloud.claims);
    PlacesStay(req.requireStaticIP, u, db.memberMap, server.nets);
    if req.cluster == "" || req.service == "" || req.region == "" || vpcID == "" {
      return Err(InvalidArgs);
    }
    if req.serviceType != STATELESS {
      if req.replicas <= 0 || req.volume.volumeSizeGB <= 0 {
        return Err(InvalidArgs);
      }
      if |req.replicaConfigs| != req.replicas {
        return Err(InvalidArgs);
      }
    }
    ghost var t := db.Contents();
    CompleteHasService(j, base, t);
    ghost var k := DevicesSoFar(j, base, t);
    if req.service in db.svcMap { NewHasNoService(j, base, t); }
    var svols := NO_VOLUMES;
    if req.serviceType != STATELESS {
      var created, n := V.CreateServiceVolumes(db, req.service, req.volume, req.journalVolume, base.devices, k);
      AfterDevices(j, base, t, db.Contents(), k, n);
      if created.None? {
        return Err(DBFailed);
      }
      svols := created.value;
    }
    assert svols == VolumesOf(req, base.devices) by { VolumesChosen(j, base.devices, svols); }
    var item := CreateServiceItem(db, req.service, newUUID, j, base);
    if item.None? {
      return Err(DBFailed);
    }
    var uuid := item.value;
    t := db.Contents();
    var attr;
    attr, k := CheckAndCreateServiceAttr(db, uuid, svols, j, true, base);
    PartialAt(j, base, t, db.Contents(), uuid);
    match attr {
      case Failed(e) => r := Err(e);
      case AlreadyCreated => r := Ok(uuid);
      case Continue(serviceAttr) => r := FinishCreation(db, server, cloud, j, serviceAttr, uuid, svols, base, k);
    }
  }

  lemma CompleteHasService(j: Job, base: Tables, t: Tables)
    ensures Complete(j, base, t) ==> WithService(j, base, t)
  {
    hide WithService;
  }

  lemma DevicesSoFar(j: Job, base: Tables, t: Tables) returns (k: nat)
    requires Partial(j, base, t) && NewService(j, base)
    ensures k <= Wanted(j.req) && V.HasDevices(base.devices, j.req.service, k, t.devices)
    ensures V.NewName(base.devices, j.req.service)
    ensures WithService(j, base, t) ==> k == Wanted(j.req)
  {
    hide V.HasDevices, V.NewName, WithAttr, WithoutAttr, NewUUID;
    if WithService(j, base, t) {
      k := Wanted(j.req);
    } else {
      k :| k <= Wanted(j.req) && V.HasDevices(base.devices, j.req.service, k, t.devices);
    }
  }

  lemma VolumesChosen(j: Job, devices: Devices.Table, sv: ServiceVolumes)
    requires sv == if j.req.serviceType == STATELESS then NO_VOLUMES
                   else V.VolumesAt(devices, j.req.service, j.req.volume, j.req.journalVolume)
    ensures sv == VolumesOf(j.req, devices)
  {
  }

  /** A state with the service is one that attempts may leave, and a complete one is left alone. */
  lemma PartialAt(j: Job, base: Tables, t: Tables, t': Tables, uuid: string)
    requires At(j, base, t', uuid)
    ensures Partial(j, base, t')
    ensures At(j, base, t, uuid) && Complete(j, base, t) ==> uuid in t.attrs && t.attrs[uuid].meta.serviceStatus != Creating
  {
    hide WithService;
  }

  lemma MadeSoFar(j: Job, base: Tables, t: Tables, uuid: string, k: nat)
    requires ValidJob(j) && At(j, base, t, uuid) && WithAttr(j, uuid, base, t, k)
    ensures ValidPlan(PlanOf(j)) && k <= j.req.replicas
    ensures var p, sv := PlanOf(j), VolumesOf(j.req, base.devices);
            Fresh(p, uuid, sv, base, t, k) && HasMembers(p, uuid, sv, IDsOf(j.md5, j.req.service, j.req.serviceConfigs), t, k)
  {
    hide V.HasDevices, Made, VolumesOf, FilesOf, Members.Unused, ValidPlan, IsAttr, HasMembers, IDsOf;
    MadeHasMembers(PlanOf(j), uuid, VolumesOf(j.req, base.devices), base, t, k);
  }

  lemma AfterUpdate(j: Job, base: Tables, t: Tables, t': Tables, uuid: string, k: nat, status: Status, now: int,
                    lossy: bool, err: Option<DBError>)
    requires At(j, base, t, uuid) && WithAttr(j, uuid, base, t, k) && k == j.req.replicas
    requires (t.attrs[uuid].meta.serviceStatus, status) in {(Creating, Initializing), (Initializing, Active)}
    requires t' == t.(attrs := t'.attrs)
    requires var n := UpdateServiceStatus(t.attrs[uuid], status, now);
             Write(lossy, t.attrs, t.attrs[uuid := n], UpdateServiceAttr(Some(t.attrs[uuid]), t.attrs[uuid], n).error, t'.attrs, err)
    ensures Partial(j, base, t') && At(j, base, t', uuid)
    ensures err.None? ==> Complete(j, base, t') && StatusIs(t', uuid, status)
  {
    hide V.HasDevices, Made, VolumesOf, FilesOf, IsAttr, At, WithAttr, WithService, Complete;
    AfterStatus(j, base, t, t', uuid, k, status, now);
    PartialAt(j, base, t, t', uuid);
  }

  /** The one change a request to initialize a service may make: its attr, from INITIALIZING to ACTIVE. */
  ghost predicate Initialized(service: string, t: Tables, t': Tables) {
    && service in t.services && t.services[service] in t.attrs
    && var u := t.services[service];
       && t.attrs[u].meta.serviceStatus == Initializing && u in t'.attrs
       && t' == t.(attrs := t.attrs[u := UpdateServiceStatus(t.attrs[u], Active, t'.attrs[u].meta.lastModified)])
  }

  /**
   From INITIALIZING to ACTIVE, in any database and whatever has happened to the service since; any
   other status stays. During a creation: before it is complete nothing happens, and it stays one.
   */
  method SetServiceInitialized(db: DB, service: string, ghost j: Job, ghost base: Tables) returns (ok: bool)
    requires db.Valid() && forall u :: u in db.svcAttrMap ==> db.svcAttrMap[u].serviceUUID == u
    modifies db
    ensures db.Valid() && (db.Contents() == old(db.Contents()) || Initialized(service, old(db.Contents()), db.Contents()))
    ensures ok ==> service in db.svcMap && StatusIs(db.Contents(), db.svcMap[service], Active)
    ensures ok ==> Initialized(service, old(db.Contents()), db.Contents()) || StatusIs(old(db.Contents()), db.svcMap[service], Active)
    ensures db.svcAttrMap != old(db.svcAttrMap) ==>
              && service in db.svcMap && db.svcMap[service] in old(db.svcAttrMap) && db.svcMap[service] in db.svcAttrMap
              && StatusChanged(old(db.svcAttrMap)[db.svcMap[service]], db.svcAttrMap[db.svcMap[service]], Active)
    ensures db.reliable ==>
              (ok <==> service in db.svcMap && (StatusIs(old(db.Contents()), db.svcMap[service], Initializing)
                                                || StatusIs(old(db.Contents()), db.svcMap[service], Active)))
    ensures service == j.req.service && NewService(j, base) && Partial(j, base, old(db.Contents())) ==>
              && Partial(j, base, db.Contents()) && (ok ==> Complete(j, base, db.Contents()))
              && (!Complete(j, base, old(db.Contents())) ==> !ok && db.Contents() == old(db.Contents()))
  {
    hide Partial, Complete, NewService;
    ghost var t := db.Contents();
    ok := false;
    var svc := db.GetService(service);
    if svc.Got? {
      var uuid := svc.value;
      var got := db.GetServiceAttr(uuid);
      if got.Got? {
        var sattr := got.value;
        match sattr.meta.serviceStatus {
          case Creating =>
          case Initializing =>
            var now := *;
            var newAttr := UpdateServiceStatus(sattr, Active, now);
            var err := db.UpdateServiceAttr(sattr, newAttr);
            ok := err.None?;
          case Active => ok := true;
          case Deleting =>
          case Deleted =>
        }
      }
    }
    if service == j.req.service && NewService(j, base) && Partial(j, base, t) { InitializedPartial(j, base, t, db.Contents()); }
  }

  lemma InitializedPartial(j: Job, base: Tables, t: Tables, t': Tables)
    requires NewService(j, base) && Partial(j, base, t) && (t' == t || Initialized(j.req.service, t, t'))
    ensures Partial(j, base, t')
    ensures Initialized(j.req.service, t, t') ==> Complete(j, base, t) && Complete(j, base, t')
    ensures j.req.service in t.services && StatusIs(t, t.services[j.req.service], Active) ==> Complete(j, base, t)
  {
    if j.req.service in t.services && t.services[j.req.service] in t.attrs {
      var uuid := t.services[j.req.service];
      NewHasNoService(j, base, t);
      hide Partial, NewService, WithService, Complete;
      var k := AttrIsOwn(j, base, t, uuid);
      ReplicasMade(j, base, t, uuid, k);
      hide WithAttr, VolumesOf;
      if Initialized(j.req.service, t, t') {
        AfterStatus(j, base, t, t', uuid, k, Active, t'.attrs[uuid].meta.lastModified);
        RevisionGrows(t, t', uuid);
        PartialAt(j, base, t, t', uuid);
      }
    }
  }

  lemma RevisionGrows(t: Tables, t': Tables, uuid: string)
    requires uuid in t.attrs && t.attrs[uuid].meta.serviceStatus == Initializing && uuid in t'.attrs
    requires t' == t.(attrs := t.attrs[uuid := UpdateServiceStatus(t.attrs[uuid], Active, t'.attrs[uuid].meta.lastModified)])
    ensures t' != t
  {
    assert t'.attrs[uuid] != t.attrs[uuid];
  }

  lemma NewHasNoService(j: Job, base: Tables, t: Tables)
    requires NewService(j, base) && Partial(j, base, t) && j.req.service in t.services
    ensures WithService(j, base, t)
  {
    hide WithService, V.HasDevices, V.NewName;
  }

  lemma ReplicasMade(j: Job, base: Tables, t: Tables, uuid: string, k: nat)
    requires WithAttr(j, uuid, base, t, k)
    ensures t.attrs[uuid].serviceUUID == uuid
    ensures t.attrs[uuid].meta.serviceStatus != Creating ==> k == j.req.replicas
  {
    hide Made, VolumesOf, FilesOf;
  }

  // ---------------------------------------------------------------- results

  /** The references are to version 0 of the asked files, under their names and checksums. */
  predicate RefsAsAsked(md5: string -> string, prefix: string, cfgs: seq<ConfigFileContent>, configs: seq<ConfigID>) {
    && |configs| == |cfgs|
    && forall i :: 0 <= i < |cfgs| ==>
         && configs[i].fileName == cfgs[i].fileName && configs[i].fileMD5 == md5(cfgs[i].content)
         && configs[i].fileID == ConfigFileIDs.GenConfigFileID(prefix, md5(cfgs[i].fileName), 0)
  }

  /** The primary volume is for the primary device, the journal volume for the journal device, if there is one. */
  ghost predicate VolumesAsAsked(req: Request, devices: Devices.Table, v: ServiceVolumes) {
    if req.serviceType == STATELESS then
      v.primaryDeviceName == "" && v.journalDeviceName == ""
    else
      && v.primaryDeviceName == V.Primary(devices, req.service) && v.primaryVolume == req.volume
      && match req.journalVolume
         case Some(journal) => v.journalDeviceName == V.Journal(devices, req.service) && v.journalVolume == journal
         case None => v.journalDeviceName == "" && v.journalVolume == ServiceVolume("", 0, 0, false)
  }

  predicate MemberAsAsked(md5: string -> string, uuid: string, sv: ServiceVolumes, c: ReplicaConfig, m: ServiceMember) {
    && m.serviceUUID == uuid && m.memberName == c.memberName && m.revision == 0 && m.meta.status == "ACTIVE"
    && m.spec.availableZone == c.zone && m.spec.taskID == "defaultTaskID"
    && m.spec.containerInstanceID == "defaultContainerInstanceID" && m.spec.serverInstanceID == "defaultServerInstanceID"
    && m.spec.volumes.primaryDeviceName == sv.primaryDeviceName && (m.spec.volumes.primaryVolumeID != "" <==> sv.primaryDeviceName != "")
    && m.spec.volumes.journalDeviceName == sv.journalDeviceName && (m.spec.volumes.journalVolumeID != "" <==> sv.journalDeviceName != "")
    && RefsAsAsked(md5, c.memberName, c.configs, m.spec.configs)
  }

  /** Version 0 of the asked file. */
  predicate FileAsAsked(md5: string -> string, uuid: string, prefix: string, c: ConfigFileContent, f: ConfigFile) {
    && f.serviceUUID == uuid && f.fileID == ConfigFileIDs.GenConfigFileID(prefix, md5(c.fileName), 0) && f.revision == 0
    && f.fileName == c.fileName && f.fileMode == c.fileMode && f.fileMD5 == md5(c.content) && f.content == c.content
  }

  ghost predicate FilesAsAsked(md5: string -> string, uuid: string, prefix: string, cfgs: seq<ConfigFileContent>, files: map<Key, ConfigFile>) {
    forall i :: 0 <= i < |cfgs| ==>
      var key := (uuid, ConfigFileIDs.GenConfigFileID(prefix, md5(cfgs[i].fileName), 0));
      key in files && FileAsAsked(md5, uuid, prefix, cfgs[i], files[key])
  }

  lemma InitialRefs(md5: string -> string, prefix: string, cfgs: seq<ConfigFileContent>)
    ensures RefsAsAsked(md5, prefix, cfgs, IDsOf(md5, prefix, cfgs))
  {
    hide ConfigFileIDs.GenConfigFileID;
  }

  /** A complete creation stores the attr that was asked for. */
  lemma AttrAsRequested(j: Job, base: Tables, t: Tables)
    requires Complete(j, base, t)
    ensures j.req.service in t.services && t.services[j.req.service] in t.attrs
    ensures var u := t.services[j.req.service];
            var a := t.attrs[u];
            && a.serviceUUID == u && a.meta.clusterName == j.req.cluster && a.meta.serviceName == j.req.service
            && a.meta.serviceType == j.req.serviceType
            && ((a.meta.serviceStatus == Initializing && a.revision == 1) || (a.meta.serviceStatus == Active && a.revision == 2))
            && a.spec.replicas == j.req.replicas && a.spec.resource == j.req.resource
            && a.spec.registerDNS == j.req.registerDNS && a.spec.domainName == j.domainName && a.spec.hostedZoneID == j.hostedZoneID
            && a.spec.requireStaticIP == j.req.requireStaticIP && a.spec.catalogServiceType == j.req.catalogServiceType
            && RefsAsAsked(j.md5, j.req.service, j.req.serviceConfigs, a.spec.serviceConfigs)
            && VolumesAsAsked(j.req, base.devices, a.spec.volumes)
  {
    hide V.HasDevices, V.Primary, V.Journal, Made, FilesOf, NewUUID, IDsOf, RefsAsAsked;
    var u := t.services[j.req.service];
    assert !WithoutAttr(j, u, base, t);
    var k: nat :| WithAttr(j, u, base, t, k);
    InitialRefs(j.md5, j.req.service, j.req.serviceConfigs);
  }

  /** It has the members that were asked for. */
  lemma MembersAsRequested(j: Job, base: Tables, t: Tables, i: nat)
    requires Complete(j, base, t) && i < j.req.replicas
    ensures j.req.service in t.services && t.services[j.req.service] in t.attrs && i < |j.req.replicaConfigs|
    ensures var u, c := t.services[j.req.service], j.req.replicaConfigs[i];
            && (u, c.memberName) in t.members
            && MemberAsAsked(j.md5, u, t.attrs[u].spec.volumes, c, t.members[(u, c.memberName)])
  {
    hide V.HasDevices, FilesOf, FilesOK, NewUUID, IDsOf, RefsAsAsked, VolumesOf, IPsOK, IPsAdded, WellKeyed;
    var u := t.services[j.req.service];
    assert !WithoutAttr(j, u, base, t);
    var k: nat :| WithAttr(j, u, base, t, k);
    assert IsMember(PlanOf(j), u, VolumesOf(j.req, base.devices), i, t.members[MemberKey(PlanOf(j), u, i)]);
    InitialRefs(j.md5, j.req.replicaConfigs[i].memberName, j.req.replicaConfigs[i].configs);
  }

  /** And the files of the service and its members, with the contents that were asked for. */
  lemma FilesAsRequested(j: Job, base: Tables, t: Tables, o: nat)
    requires ValidJob(j) && Complete(j, base, t) && o <= j.req.replicas
    ensures j.req.service in t.services && o <= |j.req.replicaConfigs|
    ensures FilesAsAsked(j.md5, t.services[j.req.service], PrefixAt(PlanOf(j), o), ConfigsAt(PlanOf(j), o), t.configs)
  {
    hide V.HasDevices, FilesOf, FilesOK, IDsOf, VolumesOf, IPsOK, IPsAdded, WellKeyed, ValidPlan, NoFiles, NoMembers, MembersOK, FilesAsAsked;
    var u, p := t.services[j.req.service], PlanOf(j);
    assert !WithoutAttr(j, u, base, t);
    var k: nat :| WithAttr(j, u, base, t, k);
    assert o <= |p.replicas| by { assert IPsOK(p, u, t.members, t.ips, k); MadeWithin(p, u, t.members, t.ips, k); }
    OwnerFiles(p, u, base.configs, t.configs, k + 1, o);
  }

  lemma MadeWithin(p: Plan, uuid: string, ms: map<Key, ServiceMember>, ips: map<IP, ServiceStaticIP>, k: nat)
    requires IPsOK(p, uuid, ms, ips, k)
    ensures k <= |p.replicas|
  {
  }

  lemma OwnerFiles(p: Plan, uuid: string, before: map<Key, ConfigFile>, files: map<Key, ConfigFile>, m: nat, o: nat)
    requires ValidPlan(p) && FilesOK(p, uuid, before, files, m) && NoFiles(uuid, before) && FilesOf(p, uuid, o, files)
    ensures o <= |p.replicas| && FilesAsAsked(p.md5, uuid, PrefixAt(p, o), ConfigsAt(p, o), files)
  {
    hide ConfigFileIDs.GenConfigFileID, ValidPlan;
    var cfgs := ConfigsAt(p, o);
    forall i | 0 <= i < |cfgs|
      ensures var key := (uuid, ConfigFileIDs.GenConfigFileID(PrefixAt(p, o), p.md5(cfgs[i].fileName), 0));
              key in files && FileAsAsked(p.md5, uuid, PrefixAt(p, o), cfgs[i], files[key])
    {
      var key: Key := (uuid, IDAt(p, o, i));
      assert key in files && IsInit(p.md5, uuid, PrefixAt(p, o), cfgs[i], files[key]);
      assert Planned(p, uuid, key, files[key], m);
      var q: nat, j: nat :| q <= m && IsFile(p, uuid, q, j, key, files[key]);
      SameID(p, o, i, q, j);
    }
  }

  /** Two members for the same config: they differ in UUID, volumes, address and time only. */
  predicate SameMember(m: ServiceMember, m': ServiceMember) {
    m' == m.(serviceUUID := m'.serviceUUID, meta := m.meta.(lastModified := m'.meta.lastModified),
             spec := m.spec.(staticIP := m'.spec.staticIP,
                             volumes := m.spec.volumes.(primaryVolumeID := m'.spec.volumes.primaryVolumeID,
                                                        journalVolumeID := m'.spec.volumes.journalVolumeID)))
  }

  /** Two files with the same ID, of services with different UUIDs. */
  predicate SameFile(f: ConfigFile, f': ConfigFile) { EqualConfigFile(f.(serviceUUID := f'.serviceUUID), f') }

  predicate SameAttr(a: ServiceAttr, a': ServiceAttr) {
    a.meta.serviceStatus == a'.meta.serviceStatus ==> a.revision == a'.revision && EqualServiceAttr(a.(serviceUUID := a'.serviceUUID), a')
  }

  /** The same database up to the choice of the UUID, the volumes, the addresses and the times. */
  ghost predicate SameUpToChoice(service: string, t: Tables, t': Tables)
    requires service in t.services && service in t'.services
  {
    var u, u' := t.services[service], t'.services[service];
    && t.devices == t'.devices
    && t'.services == t.services[service := u']
    && (u in t.attrs && u' in t'.attrs && SameAttr(t.attrs[u], t'.attrs[u']))
    && (forall name :: (u, name) in t.members <==> (u', name) in t'.members)
    && (forall name :: (u, name) in t.members && (u', name) in t'.members ==> SameMember(t.members[(u, name)], t'.members[(u', name)]))
    && (forall id :: (u, id) in t.configs <==> (u', id) in t'.configs)
    && (forall id :: (u, id) in t.configs && (u', id) in t'.configs ==> SameFile(t.configs[(u, id)], t'.configs[(u', id)]))
  }

  /** Records of other services and addresses of other services are as before. */
  ghost predicate OthersKept(service: string, base: Tables, t: Tables)
    requires service in t.services
  {
    var u := t.services[service];
    && (forall v :: v != u ==> SameAt(t.attrs, base.attrs, v))
    && (forall key: Key :: key.0 != u ==> SameAt(t.members, base.members, key))
    && (forall key: Key :: key.0 != u ==> SameAt(t.configs, base.configs, key))
    && (forall ip :: ip in base.ips ==> ip in t.ips && t.ips[ip] == base.ips[ip])
    && (forall ip :: ip in t.ips && ip !in base.ips ==> t.ips[ip].serviceUUID == u)
  }

  /** The members of a complete creation are those of its configs. */
  lemma MemberNames(p: Plan, uuid: string, sv: ServiceVolumes, base: Tables, t: Tables, k: nat, name: string)
    requires Made(p, uuid, sv, base, t, k) && NoMembers(uuid, base.members)
    ensures k <= |p.replicas|
    ensures (uuid, name) in t.members <==> exists i :: 0 <= i < k && p.replicas[i].memberName == name
    ensures forall i :: 0 <= i < k && p.replicas[i].memberName == name ==>
              (uuid, name) in t.members && IsMember(p, uuid, sv, i, t.members[(uuid, name)])
  {
    hide FilesOK, FilesOf, IPsAdded, IPsOK, IsMember, WellKeyed;
    if (uuid, name) in t.members {
      assert (uuid, name) !in base.members;
      var i :| 0 <= i < k && (uuid, name) == MemberKey(p, uuid, i);
    }
    forall i | 0 <= i < k && p.replicas[i].memberName == name
      ensures (uuid, name) in t.members && IsMember(p, uuid, sv, i, t.members[(uuid, name)])
    {
      assert MemberKey(p, uuid, i) == (uuid, name);
    }
  }

  /** The files of a complete creation are those of its configs. */
  lemma FileNames(p: Plan, uuid: string, sv: ServiceVolumes, base: Tables, t: Tables, k: nat, id: string)
    requires Made(p, uuid, sv, base, t, k) && NoFiles(uuid, base.configs) && FilesOf(p, uuid, 0, t.configs) && k == |p.replicas|
    ensures (uuid, id) in t.configs <==> exists o: nat, i: nat :: HasID(p, o, i, id)
    ensures forall o: nat, i: nat :: HasID(p, o, i, id) ==>
              (uuid, id) in t.configs && IsInit(p.md5, uuid, PrefixAt(p, o), ConfigsAt(p, o)[i], t.configs[(uuid, id)])
  {
    hide MembersOK, IPsAdded, IPsOK, WellKeyed, FileID, IsInit;
    if (uuid, id) in t.configs {
      assert (uuid, id) !in base.configs;
      assert Planned(p, uuid, (uuid, id), t.configs[(uuid, id)], k + 1);
      var o: nat, i: nat :| o <= k + 1 && IsFile(p, uuid, o, i, (uuid, id), t.configs[(uuid, id)]);
      assert HasID(p, o, i, id);
    }
    forall o: nat, i: nat | HasID(p, o, i, id)
      ensures (uuid, id) in t.configs && IsInit(p.md5, uuid, PrefixAt(p, o), ConfigsAt(p, o)[i], t.configs[(uuid, id)])
    {
      assert FilesOf(p, uuid, o, t.configs);
    }
  }

  predicate HasID(p: Plan, o: nat, i: nat, id: string) {
    o <= |p.replicas| && i < |ConfigsAt(p, o)| && IDAt(p, o, i) == id
  }

  /** What a creation that has got to its attr is, in the terms of the members and files. */
  ghost predicate Parts(j: Job, base: Tables, t: Tables, uuid: string, k: nat) {
    && uuid in t.attrs && NewUUID(uuid, base) && WithAttr(j, uuid, base, t, k)
    && j.req.service in t.services && t.services == base.services[j.req.service := uuid]
    && V.HasDevices(base.devices, j.req.service, Wanted(j.req), t.devices)
  }

  lemma CompleteParts(j: Job, base: Tables, t: Tables)
    requires Complete(j, base, t) && j.req.replicas == |j.req.replicaConfigs|
    ensures j.req.service in t.services && Parts(j, base, t, t.services[j.req.service], |j.req.replicaConfigs|)
  {
    hide V.HasDevices, Made, VolumesOf, FilesOf, NewUUID, IsAttr;
    var uuid := t.services[j.req.service];
    assert !WithoutAttr(j, uuid, base, t);
    var k: nat :| WithAttr(j, uuid, base, t, k);
  }

  lemma MembersAgree(p: Plan, sv: ServiceVolumes, base: Tables, k: nat, u: string, t: Tables, u': string, t': Tables, name: string)
    requires ValidPlan(p)
    requires Made(p, u, sv, base, t, k) && NoMembers(u, base.members) && Made(p, u', sv, base, t', k) && NoMembers(u', base.members)
    ensures (u, name) in t.members <==> (u', name) in t'.members
    ensures (u, name) in t.members && (u', name) in t'.members ==> SameMember(t.members[(u, name)], t'.members[(u', name)])
  {
    hide Made, NoMembers, ValidPlan;
    MemberNames(p, u, sv, base, t, k, name);
    MemberNames(p, u', sv, base, t', k, name);
    if i :| 0 <= i < k && p.replicas[i].memberName == name {
      MembersSame(p, sv, i, u, t.members[(u, name)], u', t'.members[(u', name)]);
    }
  }

  lemma MembersSame(p: Plan, sv: ServiceVolumes, i: nat, u: string, m: ServiceMember, u': string, m': ServiceMember)
    requires IsMember(p, u, sv, i, m) && IsMember(p, u', sv, i, m')
    ensures SameMember(m, m')
  {
  }

  lemma FilesAgree(p: Plan, sv: ServiceVolumes, base: Tables, u: string, t: Tables, u': string, t': Tables, id: string)
    requires Made(p, u, sv, base, t, |p.replicas|) && NoFiles(u, base.configs) && FilesOf(p, u, 0, t.configs)
    requires Made(p, u', sv, base, t', |p.replicas|) && NoFiles(u', base.configs) && FilesOf(p, u', 0, t'.configs)
    ensures (u, id) in t.configs <==> (u', id) in t'.configs
    ensures (u, id) in t.configs && (u', id) in t'.configs ==> SameFile(t.configs[(u, id)], t'.configs[(u', id)])
  {
    hide Made, NoFiles, FilesOf, FileID;
    FileNames(p, u, sv, base, t, |p.replicas|, id);
    FileNames(p, u', sv, base, t', |p.replicas|, id);
  }

  /**
   Two complete creations of the same request from the same database agree up to the choice of the
   UUID, the volumes, the addresses and the times: it does not matter how many attempts were
   interrupted, nor where.
   */
  lemma CompleteAgree(j: Job, base: Tables, t: Tables, t': Tables)
    requires ValidJob(j) && Complete(j, base, t) && Complete(j, base, t') && j.req.replicas == |j.req.replicaConfigs|
    ensures SameUpToChoice(j.req.service, t, t')
  {
    hide Parts, WithService, SameMember, SameFile, SameAttr, ValidJob;
    CompleteParts(j, base, t);
    CompleteParts(j, base, t');
    var u, u' := t.services[j.req.service], t'.services[j.req.service];
    hide Complete;
    AttrsAgree(j, base, t, u, t', u');
    forall name
      ensures (u, name) in t.members <==> (u', name) in t'.members
      ensures (u, name) in t.members && (u', name) in t'.members ==> SameMember(t.members[(u, name)], t'.members[(u', name)])
    {
      PartsAgree(j, base, t, u, t', u', name);
    }
    forall id
      ensures (u, id) in t.configs <==> (u', id) in t'.configs
      ensures (u, id) in t.configs && (u', id) in t'.configs ==> SameFile(t.configs[(u, id)], t'.configs[(u', id)])
    {
      PartsAgree(j, base, t, u, t', u', id);
    }
  }

  lemma PartsAgree(j: Job, base: Tables, t: Tables, u: string, t': Tables, u': string, name: string)
    requires ValidJob(j) && Parts(j, base, t, u, |j.req.replicaConfigs|) && Parts(j, base, t', u', |j.req.replicaConfigs|)
    ensures (u, name) in t.members <==> (u', name) in t'.members
    ensures (u, name) in t.members && (u', name) in t'.members ==> SameMember(t.members[(u, name)], t'.members[(u', name)])
    ensures (u, name) in t.configs <==> (u', name) in t'.configs
    ensures (u, name) in t.configs && (u', name) in t'.configs ==> SameFile(t.configs[(u, name)], t'.configs[(u', name)])
  {
    hide V.HasDevices, VolumesOf, Made, NoMembers, NoFiles, WellKeyed, FilesOf, SameMember, SameFile, ValidPlan, IsAttr;
    var p, sv := PlanOf(j), VolumesOf(j.req, base.devices);
    MembersAgree(p, sv, base, |p.replicas|, u, t, u', t', name);
    FilesAgree(p, sv, base, u, t, u', t', name);
  }

  lemma AttrsAgree(j: Job, base: Tables, t: Tables, u: string, t': Tables, u': string)
    requires Parts(j, base, t, u, |j.req.replicaConfigs|) && Parts(j, base, t', u', |j.req.replicaConfigs|)
    ensures u in t.attrs && u' in t'.attrs && SameAttr(t.attrs[u], t'.attrs[u'])
    ensures t.devices == t'.devices && t'.services == t.services[j.req.service := u']
  {
    hide V.WithDevices, VolumesOf, Made, NewUUID, FilesOf;
  }

  lemma OnlyOwnFiles(p: Plan, u: string, before: map<Key, ConfigFile>, files: map<Key, ConfigFile>, m: nat)
    requires FilesOK(p, u, before, files, m)
    ensures forall key: Key :: key.0 != u ==> (key in files <==> key in before)
  {
    hide FileID, IsInit;
  }

  lemma OnlyOwnMembers(p: Plan, u: string, sv: ServiceVolumes, before: map<Key, ServiceMember>, ms: map<Key, ServiceMember>, k: nat)
    requires MembersOK(p, u, sv, before, ms, k)
    ensures forall key: Key :: key.0 != u ==> (key in ms <==> key in before)
  {
    hide IsMember;
  }

  lemma OthersOfParts(j: Job, base: Tables, t: Tables, u: string, k: nat)
    requires Parts(j, base, t, u, k)
    ensures forall key: Key :: key.0 != u ==> (key in t.configs <==> key in base.configs)
    ensures forall key: Key :: key.0 != u ==> (key in t.members <==> key in base.members)
    ensures Grown(base.configs, t.configs) && IPsAdded(base.ips, t.ips, u)
    ensures forall key :: key in base.members ==> key in t.members && t.members[key] == base.members[key]
    ensures u in t.attrs && t.attrs == base.attrs[u := t.attrs[u]]
  {
    hide V.HasDevices, VolumesOf, IsMember, IsAttr, IPsOK, FilesOf, Planned, Members.Unused;
    OnlyOwnFiles(PlanOf(j), u, base.configs, t.configs, k + 1);
    OnlyOwnMembers(PlanOf(j), u, VolumesOf(j.req, base.devices), base.members, t.members, k);
  }

  lemma OthersWithoutAttr(j: Job, base: Tables, t: Tables, u: string)
    requires At(j, base, t, u) && WithoutAttr(j, u, base, t)
    ensures OthersKept(j.req.service, base, t)
  {
    hide FileID, IsInit, V.HasDevices, NewUUID, WithAttr, Planned;
    OnlyOwnFiles(PlanOf(j), u, base.configs, t.configs, 0);
  }

  lemma OthersWithAttr(j: Job, base: Tables, t: Tables, u: string, k: nat)
    requires At(j, base, t, u) && WithAttr(j, u, base, t, k)
    ensures OthersKept(j.req.service, base, t)
  {
    hide V.HasDevices, NewUUID, Made, FilesOf, VolumesOf, IsAttr;
    assert Parts(j, base, t, u, k);
    OthersOfParts(j, base, t, u, k);
  }

  /** Wherever the attempts stopped, everything that is not the service's is as it was before the first of them. */
  lemma OthersAreKept(j: Job, base: Tables, t: Tables)
    requires Partial(j, base, t) && j.req.service in t.services && NewService(j, base)
    ensures OthersKept(j.req.service, base, t)
  {
    NewHasNoService(j, base, t);
    hide WithAttr, V.HasDevices, FilesOK, NewUUID, Partial, NewService, OthersKept, WithoutAttr;
    var u := t.services[j.req.service];
    if WithoutAttr(j, u, base, t) {
      OthersWithoutAttr(j, base, t, u);
    } else {
      var k: nat :| WithAttr(j, u, base, t, k);
      OthersWithAttr(j, base, t, u, k);
    }
  }
}
