/**
 The records of the control plane (api/common/service.go), the functions that derive new records from
 old ones (pkg/db/utils.go), and the guarded writes of the store (pkg/db/db.go, pkg/db/memdb.go,
 pkg/db/awsdynamodb/dynamodb_serviceattr.go). Timestamps are parameters. An
 address is kept as its bytes, not as text.
 */
module Records {
  import opened Text
  import opened NextIP

  datatype Status = Creating | Initializing | Active | Deleting | Deleted

  datatype DBError = ConditionalCheckFailed | RecordNotFound | InvalidRequest | Internal

  datatype ConfigID = ConfigID(fileName: string, fileID: string, fileMD5: string)

  datatype Resources = Resources(maxCPUUnits: int, reserveCPUUnits: int, maxMemMB: int, reserveMemMB: int)

  datatype ServiceVolume = ServiceVolume(volumeType: string, volumeSizeGB: int, iops: int, encrypted: bool)

  datatype ServiceVolumes = ServiceVolumes(
    primaryDeviceName: string, primaryVolume: ServiceVolume, journalDeviceName: string, journalVolume: ServiceVolume)

  datatype ServiceMeta = ServiceMeta(
    clusterName: string, serviceName: string, lastModified: int, serviceType: string, serviceStatus: Status)

  datatype ServiceSpec = ServiceSpec(
    replicas: int, resource: Resources, registerDNS: bool, domainName: string, hostedZoneID: string,
    requireStaticIP: bool, serviceConfigs: seq<ConfigID>, catalogServiceType: string, volumes: ServiceVolumes)

  datatype ServiceAttr = ServiceAttr(serviceUUID: string, revision: int, meta: ServiceMeta, spec: ServiceSpec)

  datatype MemberVolumes = MemberVolumes(
    primaryVolumeID: string, primaryDeviceName: string, journalVolumeID: string, journalDeviceName: string)

  datatype MemberMeta = MemberMeta(lastModified: int, status: string)

  datatype MemberSpec = MemberSpec(
    availableZone: string, taskID: string, containerInstanceID: string, serverInstanceID: string,
    volumes: MemberVolumes, staticIP: IP, configs: seq<ConfigID>)

  datatype ServiceMember = ServiceMember(
    serviceUUID: string, memberName: string, revision: int, meta: MemberMeta, spec: MemberSpec)

  datatype ConfigFile = ConfigFile(
    serviceUUID: string, fileID: string, revision: int, fileName: string, lastModified: int,
    fileMode: int, fileMD5: string, content: string)

  datatype ServiceStaticIP = ServiceStaticIP(
    staticIP: IP, revision: int, serviceUUID: string, availableZone: string,
    serverInstanceID: string, networkInterfaceID: string)

  datatype ConfigFileContent = ConfigFileContent(fileName: string, fileMode: int, content: string)

  datatype ReplicaConfig = ReplicaConfig(zone: string, memberName: string, configs: seq<ConfigFileContent>)

  const MAX_RETRY_COUNT: nat := 3

  /** 127.0.0.1 */
  const DEFAULT_HOST_IP: IP := [0, 0, 0, 0, 0, 0, 0, 0, 0, 0, 255, 255, 127, 0, 0, 1]

  // ---------------------------------------------------------------- deriving records

  function UpdateServiceStatus(s: ServiceAttr, status: Status, now: int): ServiceAttr {
    s.(revision := s.revision + 1, meta := s.meta.(lastModified := now, serviceStatus := status))
  }

  function UpdateServiceReplicas(s: ServiceAttr, replicas: int, now: int): ServiceAttr {
    s.(revision := s.revision + 1, meta := s.meta.(lastModified := now), spec := s.spec.(replicas := replicas))
  }

  function UpdateServiceConfig(s: ServiceAttr, index: nat, fileID: string, fileMD5: string, now: int): ServiceAttr
    requires index < |s.spec.serviceConfigs|
  {
    var cfg := s.spec.serviceConfigs[index].(fileID := fileID, fileMD5 := fileMD5);
    s.(revision := s.revision + 1, meta := s.meta.(lastModified := now),
       spec := s.spec.(serviceConfigs := s.spec.serviceConfigs[index := cfg]))
  }

  function UpdateServiceResources(s: ServiceAttr, res: Resources, now: int): ServiceAttr {
    s.(revision := s.revision + 1, meta := s.meta.(lastModified := now), spec := s.spec.(resource := res))
  }

  function UpdateServiceMemberConfigs(m: ServiceMember, configs: seq<ConfigID>, now: int): ServiceMember {
    m.(revision := m.revision + 1, meta := m.meta.(lastModified := now), spec := m.spec.(configs := configs))
  }

  function CreateNewConfigFile(c: ConfigFile, newFileID: string, newContent: string, newMD5: string, now: int): ConfigFile {
    c.(fileID := newFileID, revision := c.revision + 1, lastModified := now, fileMD5 := newMD5, content := newContent)
  }

  function UpdateServiceMemberOwner(m: ServiceMember, taskID: string, containerInstanceID: string, serverInstanceID: string, now: int)
    : ServiceMember
  {
    m.(revision := m.revision + 1, meta := m.meta.(lastModified := now),
       spec := m.spec.(taskID := taskID, containerInstanceID := containerInstanceID, serverInstanceID := serverInstanceID))
  }

  // ---------------------------------------------------------------- what an update changes, field by field

  /** The fields of an attr that no update changes. */
  predicate SameFixed(a: ServiceAttr, b: ServiceAttr) {
    && b.serviceUUID == a.serviceUUID
    && b.meta.clusterName == a.meta.clusterName && b.meta.serviceName == a.meta.serviceName
    && b.meta.serviceType == a.meta.serviceType
    && b.spec.registerDNS == a.spec.registerDNS && b.spec.domainName == a.spec.domainName
    && b.spec.hostedZoneID == a.spec.hostedZoneID && b.spec.requireStaticIP == a.spec.requireStaticIP
    && b.spec.catalogServiceType == a.spec.catalogServiceType && b.spec.volumes == a.spec.volumes
  }

  /** The next value of the attr: another status, and nothing else but revision and time. */
  predicate StatusChanged(a: ServiceAttr, b: ServiceAttr, status: Status) {
    && SameFixed(a, b) && b.revision == a.revision + 1 && b.meta.serviceStatus == status
    && b.spec.replicas == a.spec.replicas && b.spec.resource == a.spec.resource
    && b.spec.serviceConfigs == a.spec.serviceConfigs
  }

  predicate ReplicasChanged(a: ServiceAttr, b: ServiceAttr, replicas: int) {
    && SameFixed(a, b) && b.revision == a.revision + 1 && b.spec.replicas == replicas
    && b.meta.serviceStatus == a.meta.serviceStatus && b.spec.resource == a.spec.resource
    && b.spec.serviceConfigs == a.spec.serviceConfigs
  }

  predicate ResourcesChanged(a: ServiceAttr, b: ServiceAttr, res: Resources) {
    && SameFixed(a, b) && b.revision == a.revision + 1 && b.spec.resource == res
    && b.meta.serviceStatus == a.meta.serviceStatus && b.spec.replicas == a.spec.replicas
    && b.spec.serviceConfigs == a.spec.serviceConfigs
  }

  /** One reference is to another file of the same name. */
  predicate RefChanged(a: seq<ConfigID>, b: seq<ConfigID>, index: nat, fileID: string, fileMD5: string) {
    && index < |a| == |b|
    && b[index].fileName == a[index].fileName && b[index].fileID == fileID && b[index].fileMD5 == fileMD5
    && forall i :: 0 <= i < |a| && i != index ==> b[i] == a[i]
  }

  predicate ConfigChanged(a: ServiceAttr, b: ServiceAttr, index: nat, fileID: string, fileMD5: string) {
    && SameFixed(a, b) && b.revision == a.revision + 1
    && RefChanged(a.spec.serviceConfigs, b.spec.serviceConfigs, index, fileID, fileMD5)
    && b.meta.serviceStatus == a.meta.serviceStatus && b.spec.replicas == a.spec.replicas
    && b.spec.resource == a.spec.resource
  }

  /** The fields of a member that no update changes. */
  predicate SameMember(a: ServiceMember, b: ServiceMember) {
    && b.serviceUUID == a.serviceUUID && b.memberName == a.memberName && b.meta.status == a.meta.status
    && b.spec.availableZone == a.spec.availableZone && b.spec.volumes == a.spec.volumes && b.spec.staticIP == a.spec.staticIP
  }

  predicate MemberConfigChanged(a: ServiceMember, b: ServiceMember, index: nat, fileID: string, fileMD5: string) {
    && SameMember(a, b) && b.revision == a.revision + 1
    && RefChanged(a.spec.configs, b.spec.configs, index, fileID, fileMD5)
    && b.spec.taskID == a.spec.taskID && b.spec.containerInstanceID == a.spec.containerInstanceID
    && b.spec.serverInstanceID == a.spec.serverInstanceID
  }

  predicate OwnerChanged(a: ServiceMember, b: ServiceMember, taskID: string, containerInstanceID: string, serverInstanceID: string) {
    && SameMember(a, b) && b.revision == a.revision + 1 && b.spec.configs == a.spec.configs
    && b.spec.taskID == taskID && b.spec.containerInstanceID == containerInstanceID && b.spec.serverInstanceID == serverInstanceID
  }

  /** The next version of a file: its owner, name and mode, and the new content under its checksum. */
  predicate NextVersionOf(a: ConfigFile, b: ConfigFile, fileID: string, content: string, md5: string -> string) {
    && b.serviceUUID == a.serviceUUID && b.fileID == fileID && b.revision == a.revision + 1
    && b.fileName == a.fileName && b.fileMode == a.fileMode && b.fileMD5 == md5(content) && b.content == content
  }

  lemma AttrUpdates(s: ServiceAttr, status: Status, replicas: int, res: Resources, index: nat, fileID: string, fileMD5: string, now: int)
    ensures StatusChanged(s, UpdateServiceStatus(s, status, now), status)
    ensures ReplicasChanged(s, UpdateServiceReplicas(s, replicas, now), replicas)
    ensures ResourcesChanged(s, UpdateServiceResources(s, res, now), res)
    ensures index < |s.spec.serviceConfigs| ==>
              && ConfigChanged(s, UpdateServiceConfig(s, index, fileID, fileMD5, now), index, fileID, fileMD5)
              && UpdateServiceConfig(s, index, fileID, fileMD5, now).meta.lastModified == now
    ensures UpdateServiceStatus(s, status, now).meta.lastModified == UpdateServiceReplicas(s, replicas, now).meta.lastModified
            == UpdateServiceResources(s, res, now).meta.lastModified == now
  {
  }

  lemma MemberUpdates(m: ServiceMember, configs: seq<ConfigID>, taskID: string, containerInstanceID: string,
                      serverInstanceID: string, index: nat, fileID: string, fileMD5: string, now: int)
    ensures OwnerChanged(m, UpdateServiceMemberOwner(m, taskID, containerInstanceID, serverInstanceID, now),
                         taskID, containerInstanceID, serverInstanceID)
    ensures RefChanged(m.spec.configs, configs, index, fileID, fileMD5) ==>
              MemberConfigChanged(m, UpdateServiceMemberConfigs(m, configs, now), index, fileID, fileMD5)
    ensures UpdateServiceMemberOwner(m, taskID, containerInstanceID, serverInstanceID, now).meta.lastModified
            == UpdateServiceMemberConfigs(m, configs, now).meta.lastModified == now
  {
  }

  lemma FileUpdates(c: ConfigFile, fileID: string, content: string, md5: string -> string, now: int)
    ensures NextVersionOf(c, CreateNewConfigFile(c, fileID, content, md5(content), now), fileID, content, md5)
    ensures CreateNewConfigFile(c, fileID, content, md5(content), now).lastModified == now
  {
  }

  // ---------------------------------------------------------------- comparing records

  /** EqualServiceMember with skipMtime. */
  predicate EqualServiceMember(a: ServiceMember, b: ServiceMember) {
    a == b.(meta := b.meta.(lastModified := a.meta.lastModified))
  }

  /** Everything but Revision, LastModified, ServiceStatus, Replicas, Resource and ServiceConfigs. */
  predicate EqualImmutableFields(a: ServiceAttr, b: ServiceAttr) {
    && a.serviceUUID == b.serviceUUID
    && a.meta.clusterName == b.meta.clusterName
    && a.meta.serviceName == b.meta.serviceName
    && a.meta.serviceType == b.meta.serviceType
    && a.spec.registerDNS == b.spec.registerDNS
    && a.spec.domainName == b.spec.domainName
    && a.spec.hostedZoneID == b.spec.hostedZoneID
    && a.spec.requireStaticIP == b.spec.requireStaticIP
    && a.spec.volumes == b.spec.volumes
  }

  /** EqualServiceAttr with skipMtime and skipRevision. */
  predicate EqualServiceAttr(a: ServiceAttr, b: ServiceAttr) {
    && a.serviceUUID == b.serviceUUID
    && a.meta == b.meta.(lastModified := a.meta.lastModified)
    && a.spec == b.spec
  }

  /** EqualConfigFile with skipMtime and skipContent: the checksum stands for the content. */
  predicate EqualConfigFile(a: ConfigFile, b: ConfigFile) {
    && a.serviceUUID == b.serviceUUID
    && a.fileID == b.fileID
    && a.revision == b.revision
    && a.fileName == b.fileName
    && a.fileMD5 == b.fileMD5
    && a.fileMode == b.fileMode
  }

  /** The fields that each comparison reads, all of them and no others. */
  lemma ComparedFields(a: ServiceAttr, b: ServiceAttr, m: ServiceMember, n: ServiceMember)
    ensures EqualServiceAttr(a, b) <==>
              && SameFixed(a, b) && a.meta.serviceStatus == b.meta.serviceStatus && a.spec.replicas == b.spec.replicas
              && a.spec.resource == b.spec.resource && a.spec.serviceConfigs == b.spec.serviceConfigs
    ensures a.spec.catalogServiceType == b.spec.catalogServiceType ==> (EqualImmutableFields(a, b) <==> SameFixed(a, b))
    ensures EqualImmutableFields(a, b.(spec := b.spec.(catalogServiceType := a.spec.catalogServiceType))) == EqualImmutableFields(a, b)
    ensures EqualServiceMember(m, n) <==>
              && SameMember(m, n) && m.revision == n.revision && m.spec.configs == n.spec.configs
              && m.spec.taskID == n.spec.taskID && m.spec.containerInstanceID == n.spec.containerInstanceID
              && m.spec.serverInstanceID == n.spec.serverInstanceID
  {
  }

  // ---------------------------------------------------------------- guarded writes of one record

  datatype Written = Written(stored: Option<ServiceAttr>, error: Option<DBError>)

  /** DynamoDB: the revision goes up by one, immutable fields stay, and the stored revision is the old one. */
  function UpdateServiceAttr(stored: Option<ServiceAttr>, oldAttr: ServiceAttr, newAttr: ServiceAttr): Written {
    if oldAttr.revision + 1 != newAttr.revision || !EqualImmutableFields(oldAttr, newAttr) then
      Written(stored, Some(InvalidRequest))
    else if stored.None? || stored.value.revision != oldAttr.revision then
      Written(stored, Some(ConditionalCheckFailed))
    else Written(Some(newAttr), None)
  }

  /** MemDB: the record only has to exist. */
  function MemUpdateServiceAttr(stored: Option<ServiceAttr>, oldAttr: ServiceAttr, newAttr: ServiceAttr): Written {
    if stored.None? then Written(stored, Some(RecordNotFound)) else Written(Some(newAttr), None)
  }

  /** When it is written, and what the refusals mean. */
  lemma AttrGuard(stored: Option<ServiceAttr>, oldAttr: ServiceAttr, newAttr: ServiceAttr)
    ensures MemUpdateServiceAttr(stored, oldAttr, newAttr)
            == if stored.Some? then Written(Some(newAttr), None) else Written(None, Some(RecordNotFound))
    ensures var r := UpdateServiceAttr(stored, oldAttr, newAttr);
            && (r.error.None? <==>
                  && newAttr.revision == oldAttr.revision + 1 && EqualImmutableFields(oldAttr, newAttr)
                  && stored.Some? && stored.value.revision == oldAttr.revision)
            && (r.error.None? ==> r.stored == Some(newAttr)) && (r.error.Some? ==> r.stored == stored)
            && (r.error == Some(InvalidRequest) <==> newAttr.revision != oldAttr.revision + 1 || !EqualImmutableFields(oldAttr, newAttr))
  {
  }

  function CreateServiceAttr(stored: Option<ServiceAttr>, attr: ServiceAttr): Written {
    if stored.Some? then Written(stored, Some(ConditionalCheckFailed)) else Written(Some(attr), None)
  }
}
