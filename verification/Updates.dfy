/**
 Updates of a service that exists: updateServiceConfigFile, updateMemberConfigFile, updateServiceResource
 and scaleService (pkg/managesvc/server.go), as methods on the database. Each may stop after any of its
 operations. The interleavings are in ConfigUpdates and Lifecycle.
 */
module Updates {
  import opened Text
  import opened NextIP
  import opened Records
  import opened Store
  import opened StaticIPs
  import opened ConfigFiles
  import opened Members
  import opened Cloud
  import ConfigFileIDs

  // ---------------------------------------------------------------- references

  /** The references of one owner are to different files. */
  ghost predicate DifferentFiles(configs: seq<ConfigID>) {
    forall i, j :: 0 <= i < j < |configs| ==> configs[i].fileID != configs[j].fileID
  }

  /** The ID of the file that replaces this one. */
  function NewFileID(md5: string -> string, prefix: string, c: ConfigFile): Option<string> {
    match ConfigFileIDs.GetConfigFileVersion(c.fileID)
    case None => None
    case Some(v) => Some(ConfigFileIDs.GenConfigFileID(prefix, md5(c.fileName), ConfigFileIDs.NextVersion(v)))
  }

  function Pointed(configs: seq<ConfigID>, index: nat, fileID: string, fileMD5: string): seq<ConfigID>
    requires index < |configs|
  {
    configs[index := configs[index].(fileID := fileID, fileMD5 := fileMD5)]
  }

  /** What the deletion of the old file and the creation of the new one may do to the files. */
  ghost predicate OneReplaced(files: map<Key, ConfigFile>, files': map<Key, ConfigFile>, newKey: Key, oldKey: Key, swapped: bool) {
    && (forall k :: k in files && k != oldKey ==> k in files' && files'[k] == files[k])
    && (forall k :: k in files' && k != newKey ==> k in files && files'[k] == files[k])
    && (!swapped && oldKey in files ==> oldKey in files' && files'[oldKey] == files[oldKey])
    && (newKey in files ==> newKey in files' && files'[newKey] == files[newKey])
  }

  lemma SwapKeepsRefs(uuid: string, configs: seq<ConfigID>, index: nat, files: map<Key, ConfigFile>,
                      files': map<Key, ConfigFile>, newID: string, newMD5: string)
    requires index < |configs| && AllStored(uuid, configs, files) && DifferentFiles(configs) && newID != configs[index].fileID
    requires OneReplaced(files, files', (uuid, newID), (uuid, configs[index].fileID), true)
    requires Stored(uuid, configs[index].(fileID := newID, fileMD5 := newMD5), files')
    ensures AllStored(uuid, Pointed(configs, index, newID, newMD5), files')
  {
    forall i | 0 <= i < |configs| ensures Stored(uuid, Pointed(configs, index, newID, newMD5)[i], files') {
      if i != index {
        assert Stored(uuid, configs[i], files);
        assert configs[i].fileID != configs[index].fileID;
      }
    }
  }

  /** What one update does to the files: a new version, if it can be, and the old one goes only after the swap. */
  ghost predicate FileUpdated(md5: string -> string, prefix: string, c: ConfigFile, newMD5: string,
                              files: map<Key, ConfigFile>, files': map<Key, ConfigFile>, swapped: bool) {
    match NewFileID(md5, prefix, c)
    case None => !swapped && files' == files
    case Some(newID) =>
      && var newKey := (c.serviceUUID, newID);
      && OneReplaced(files, files', newKey, (c.serviceUUID, c.fileID), swapped)
      && (swapped ==>
            && newID != c.fileID && newKey in files'
            && files'[newKey].fileMD5 == newMD5 && files'[newKey].fileName == c.fileName)
  }

  lemma FilesUpdated(md5: string -> string, prefix: string, c: ConfigFile, r: ConfigFile,
                     files: map<Key, ConfigFile>, files': map<Key, ConfigFile>, swapped: bool)
    requires NewFileID(md5, prefix, c) == Some(r.fileID) && r.fileID != c.fileID && r.fileName == c.fileName
    requires var newKey, oldKey := (c.serviceUUID, r.fileID), (c.serviceUUID, c.fileID);
             && newKey in files' && files'[newKey] == r
             && (OneReplaced(files, files', newKey, oldKey, false) || (swapped && OneReplaced(files, files', newKey, oldKey, true)))
    ensures FileUpdated(md5, prefix, c, r.fileMD5, files, files', swapped)
  {
    hide NewFileID;
  }

  lemma CreatedKeepsRefs(uuid: string, configs: seq<ConfigID>, files: map<Key, ConfigFile>, files': map<Key, ConfigFile>,
                         newID: Option<string>, oldKey: Key)
    requires if newID.None? then files' == files else OneReplaced(files, files', (uuid, newID.value), oldKey, false)
    ensures AllStored(uuid, configs, files) ==> AllStored(uuid, configs, files')
  {
    hide AllStored, OneReplaced;
    if AllStored(uuid, configs, files) && newID.Some? {
      NoSwapKeepsRefs(uuid, configs, files, files', (uuid, newID.value), oldKey);
    }
  }

  lemma NoSwapKeepsRefs(uuid: string, configs: seq<ConfigID>, files: map<Key, ConfigFile>, files': map<Key, ConfigFile>,
                        newKey: Key, oldKey: Key)
    requires AllStored(uuid, configs, files) && OneReplaced(files, files', newKey, oldKey, false)
    ensures AllStored(uuid, configs, files')
  {
  }

  /** The file under the new ID is the next version: one that this update stored has its content, one that it found has its checksum. */
  predicate TheNewFile(md5: string -> string, c: ConfigFile, newContent: string, newID: string,
                       files: map<Key, ConfigFile>, files': map<Key, ConfigFile>) {
    var newKey := (c.serviceUUID, newID);
    && newKey in files'
    && var f := files'[newKey];
       && f.serviceUUID == c.serviceUUID && f.fileID == newID && f.revision == c.revision + 1
       && f.fileName == c.fileName && f.fileMode == c.fileMode && f.fileMD5 == md5(newContent)
       && (newKey !in files ==> f.content == newContent)
  }

  /** Nothing is stored as the next version, or something that has its name, mode and checksum. */
  predicate MayCreate(md5: string -> string, prefix: string, c: ConfigFile, newContent: string, files: map<Key, ConfigFile>) {
    match NewFileID(md5, prefix, c)
    case None => false
    case Some(newID) =>
      (c.serviceUUID, newID) in files ==>
        var f := files[(c.serviceUUID, newID)];
        && f.serviceUUID == c.serviceUUID && f.fileID == newID && f.revision == c.revision + 1
        && f.fileName == c.fileName && f.fileMode == c.fileMode && f.fileMD5 == md5(newContent)
  }

  /** The new file: created, or found with the same checksum. */
  method CreateNewFile(db: DB, md5: string -> string, prefix: string, c: ConfigFile, newContent: string) returns (r: Option<ConfigFile>)
    requires db.Valid()
    modifies db
    ensures db.Valid() && db.Contents() == old(db.Contents()).(configs := db.cfgMap)
    ensures NewFileID(md5, prefix, c).None? ==> r.None? && db.cfgMap == old(db.cfgMap)
    ensures NewFileID(md5, prefix, c).Some? ==>
              OneReplaced(old(db.cfgMap), db.cfgMap, (c.serviceUUID, NewFileID(md5, prefix, c).value), (c.serviceUUID, c.fileID), false)
    ensures r.Some? ==> NewFileID(md5, prefix, c) == Some(r.value.fileID) && r.value.fileID != c.fileID
    ensures r.Some? ==> r.value.fileMD5 == md5(newContent) && r.value.fileName == c.fileName && r.value.revision == c.revision + 1
    ensures r.Some? ==> (c.serviceUUID, r.value.fileID) in db.cfgMap && db.cfgMap[(c.serviceUUID, r.value.fileID)] == r.value
    ensures r.Some? ==> TheNewFile(md5, c, newContent, r.value.fileID, old(db.cfgMap), db.cfgMap)
    ensures Hashed(md5, old(db.cfgMap)) ==> Hashed(md5, db.cfgMap)
    ensures db.reliable ==> (r.Some? <==> MayCreate(md5, prefix, c, newContent, old(db.cfgMap)))
  {
    hide ConfigFileIDs.GetConfigFileVersion, ConfigFileIDs.GenConfigFileID;
    var version := ConfigFileIDs.GetConfigFileVersion(c.fileID);
    if version.None? {
      return None;
    }
    var newFileID := ConfigFileIDs.GenConfigFileID(prefix, md5(c.fileName), ConfigFileIDs.NextVersion(version.value));
    ConfigFileIDs.NextDiffers(c.fileID, prefix, md5(c.fileName));
    var now := *;
    var newcfgfile := CreateNewConfigFile(c, newFileID, newContent, md5(newContent), now);
    var created := CreateConfigFile(db, newcfgfile);
    r := if created.Created? then Some(created.file) else None;
  }

  lemma OldGone(files: map<Key, ConfigFile>, mid: map<Key, ConfigFile>, files': map<Key, ConfigFile>, newKey: Key, oldKey: Key,
                lossy: bool, err: Option<DBError>)
    requires OneReplaced(files, mid, newKey, oldKey, false) && newKey != oldKey && Delete(lossy, mid, oldKey, files', err)
    ensures OneReplaced(files, files', newKey, oldKey, true)
    ensures newKey in mid ==> newKey in files' && files'[newKey] == mid[newKey]
  {
  }

  lemma NewStays(md5: string -> string, c: ConfigFile, newContent: string, files: map<Key, ConfigFile>, mid: map<Key, ConfigFile>,
                 files': map<Key, ConfigFile>, newID: string, lossy: bool, err: Option<DBError>)
    requires TheNewFile(md5, c, newContent, newID, files, mid) && newID != c.fileID
    requires Delete(lossy, mid, (c.serviceUUID, c.fileID), files', err)
    ensures TheNewFile(md5, c, newContent, newID, files, files')
    ensures Hashed(md5, mid) ==> Hashed(md5, files')
    ensures err != Some(Internal) ==> (c.serviceUUID, c.fileID) !in files'
  {
  }

  // ---------------------------------------------------------------- config files of the service

  /**
   The reference moves to a new stored file only if the attr is still the one that was read, and only
   then is the old file deleted: whatever happens, a stored attr whose references were stored still has
   them stored.
   */
  method UpdateServiceConfigFile(db: DB, md5: string -> string, attr: ServiceAttr, index: nat, oldCfg: ConfigFile, newContent: string)
    returns (ok: bool)
    requires db.Valid() && index < |attr.spec.serviceConfigs| && DifferentFiles(attr.spec.serviceConfigs)
    requires oldCfg.serviceUUID == attr.serviceUUID && oldCfg.fileID == attr.spec.serviceConfigs[index].fileID
    requires attr.serviceUUID in db.svcAttrMap
    requires db.svcAttrMap[attr.serviceUUID].revision == attr.revision ==> db.svcAttrMap[attr.serviceUUID] == attr
    modifies db
    ensures db.Valid() && db.Contents() == old(db.Contents()).(attrs := db.svcAttrMap, configs := db.cfgMap)
    ensures attr.serviceUUID in db.svcAttrMap && db.svcAttrMap == old(db.svcAttrMap)[attr.serviceUUID := db.svcAttrMap[attr.serviceUUID]]
    ensures ok ==> db.svcAttrMap != old(db.svcAttrMap)
    ensures db.svcAttrMap != old(db.svcAttrMap) ==>
              && old(db.svcAttrMap)[attr.serviceUUID] == attr
              && NewFileID(md5, attr.meta.serviceName, oldCfg).Some?
              && var newID := NewFileID(md5, attr.meta.serviceName, oldCfg).value;
                 && ConfigChanged(attr, db.svcAttrMap[attr.serviceUUID], index, newID, md5(newContent))
                 && TheNewFile(md5, oldCfg, newContent, newID, old(db.cfgMap), db.cfgMap)
    ensures Hashed(md5, old(db.cfgMap)) ==> Hashed(md5, db.cfgMap)
    ensures ok && db.reliable ==> (attr.serviceUUID, oldCfg.fileID) !in db.cfgMap
    ensures db.reliable ==>
              (ok <==> MayCreate(md5, attr.meta.serviceName, oldCfg, newContent, old(db.cfgMap))
                       && old(db.svcAttrMap)[attr.serviceUUID].revision == attr.revision)
    ensures FileUpdated(md5, attr.meta.serviceName, oldCfg, md5(newContent), old(db.cfgMap), db.cfgMap, db.svcAttrMap != old(db.svcAttrMap))
    ensures var uuid := attr.serviceUUID;
            oldCfg.fileName == attr.spec.serviceConfigs[index].fileName
            && AllStored(uuid, old(db.svcAttrMap)[uuid].spec.serviceConfigs, old(db.cfgMap)) ==>
              AllStored(uuid, db.svcAttrMap[uuid].spec.serviceConfigs, db.cfgMap)
  {
    hide AllStored, OneReplaced, NewFileID, DifferentFiles, TheNewFile, MayCreate, Hashed;
    ghost var uuid, files, attrs := attr.serviceUUID, db.cfgMap, db.svcAttrMap;
    ghost var oldKey := (uuid, oldCfg.fileID);
    var created := CreateNewFile(db, md5, attr.meta.serviceName, oldCfg, newContent);
    ghost var newID := NewFileID(md5, attr.meta.serviceName, oldCfg);
    CreatedKeepsRefs(uuid, attrs[uuid].spec.serviceConfigs, files, db.cfgMap, newID, oldKey);
    if created.None? {
      return false;
    }
    ghost var newKey := (uuid, created.value.fileID);
    var now := *;
    var newAttr := UpdateServiceConfig(attr, index, created.value.fileID, created.value.fileMD5, now);
    AttrUpdates(attr, Active, 0, attr.spec.resource, index, created.value.fileID, created.value.fileMD5, now);
    var err := db.UpdateServiceAttr(attr, newAttr);
    ghost var mid := db.cfgMap;
    SwappedRefs(uuid, attr.spec.serviceConfigs, index, files, mid, mid, created.value, oldKey);
    FilesUpdated(md5, attr.meta.serviceName, oldCfg, created.value, files, mid, db.svcAttrMap != attrs);
    if err.Some? {
      return false;
    }
    // an error only leaves garbage
    var deleted := db.DeleteConfigFile(attr.serviceUUID, oldCfg.fileID);
    OldGone(files, mid, db.cfgMap, newKey, oldKey, db.lossy, deleted);
    NewStays(md5, oldCfg, newContent, files, mid, db.cfgMap, created.value.fileID, db.lossy, deleted);
    FilesUpdated(md5, attr.meta.serviceName, oldCfg, created.value, files, db.cfgMap, true);
    SwappedRefs(uuid, attr.spec.serviceConfigs, index, files, mid, db.cfgMap, created.value, oldKey);
    ok := true;
  }

  lemma SwappedRefs(uuid: string, configs: seq<ConfigID>, index: nat, files: map<Key, ConfigFile>, mid: map<Key, ConfigFile>,
                    files': map<Key, ConfigFile>, c: ConfigFile, oldKey: Key)
    requires index < |configs| && DifferentFiles(configs)
    requires c.fileID != configs[index].fileID && oldKey == (uuid, configs[index].fileID)
    requires OneReplaced(files, mid, (uuid, c.fileID), oldKey, false)
    requires files' == mid || OneReplaced(files, files', (uuid, c.fileID), oldKey, true)
    requires (uuid, c.fileID) in files' && files'[(uuid, c.fileID)] == c
    ensures c.fileName == configs[index].fileName && AllStored(uuid, configs, files) ==>
              AllStored(uuid, Pointed(configs, index, c.fileID, c.fileMD5), files')
  {
    hide AllStored, DifferentFiles;
    assert OneReplaced(files, files', (uuid, c.fileID), oldKey, true);
    if c.fileName == configs[index].fileName && AllStored(uuid, configs, files) {
      SwapKeepsRefs(uuid, configs, index, files, files', c.fileID, c.fileMD5);
    }
  }

  // ---------------------------------------------------------------- config files of a member

  /** The same for a member; the guard compares the whole record but its time. */
  method UpdateMemberConfigFile(db: DB, md5: string -> string, m: ServiceMember, cfgfile: ConfigFile, index: nat, newContent: string)
    returns (ok: bool)
    requires db.Valid() && index < |m.spec.configs| && DifferentFiles(m.spec.configs)
    requires cfgfile.serviceUUID == m.serviceUUID && cfgfile.fileID == m.spec.configs[index].fileID
    requires (m.serviceUUID, m.memberName) in db.memberMap
    modifies db
    ensures db.Valid() && db.Contents() == old(db.Contents()).(members := db.memberMap, configs := db.cfgMap)
    ensures var key := (m.serviceUUID, m.memberName);
            key in db.memberMap && db.memberMap == old(db.memberMap)[key := db.memberMap[key]]
    ensures ok ==> db.memberMap != old(db.memberMap)
    ensures db.memberMap != old(db.memberMap) ==>
              && EqualServiceMember(m, old(db.memberMap)[(m.serviceUUID, m.memberName)])
              && NewFileID(md5, m.memberName, cfgfile).Some?
              && var newID := NewFileID(md5, m.memberName, cfgfile).value;
                 && MemberConfigChanged(m, db.memberMap[(m.serviceUUID, m.memberName)], index, newID, md5(newContent))
                 && TheNewFile(md5, cfgfile, newContent, newID, old(db.cfgMap), db.cfgMap)
    ensures Hashed(md5, old(db.cfgMap)) ==> Hashed(md5, db.cfgMap)
    ensures ok && db.reliable ==> (m.serviceUUID, cfgfile.fileID) !in db.cfgMap
    ensures db.reliable ==>
              (ok <==> MayCreate(md5, m.memberName, cfgfile, newContent, old(db.cfgMap))
                       && EqualServiceMember(m, old(db.memberMap)[(m.serviceUUID, m.memberName)]))
    ensures FileUpdated(md5, m.memberName, cfgfile, md5(newContent), old(db.cfgMap), db.cfgMap, db.memberMap != old(db.memberMap))
    ensures var key := (m.serviceUUID, m.memberName);
            cfgfile.fileName == m.spec.configs[index].fileName
            && AllStored(m.serviceUUID, old(db.memberMap)[key].spec.configs, old(db.cfgMap)) ==>
              AllStored(m.serviceUUID, db.memberMap[key].spec.configs, db.cfgMap)
  {
    hide AllStored, OneReplaced, NewFileID, DifferentFiles, TheNewFile, MayCreate, Hashed;
    ghost var uuid, key, files, members := m.serviceUUID, (m.serviceUUID, m.memberName), db.cfgMap, db.memberMap;
    ghost var oldKey := (uuid, cfgfile.fileID);
    var created := CreateNewFile(db, md5, m.memberName, cfgfile, newContent);
    ghost var newID := NewFileID(md5, m.memberName, cfgfile);
    CreatedKeepsRefs(uuid, members[key].spec.configs, files, db.cfgMap, newID, oldKey);
    if created.None? {
      return false;
    }
    ghost var newKey := (uuid, created.value.fileID);
    var newConfigs := m.spec.configs;
    newConfigs := newConfigs[index := newConfigs[index].(fileID := created.value.fileID)];
    newConfigs := newConfigs[index := newConfigs[index].(fileMD5 := created.value.fileMD5)];
    assert newConfigs == Pointed(m.spec.configs, index, created.value.fileID, created.value.fileMD5);
    var now := *;
    var newMember := UpdateServiceMemberConfigs(m, newConfigs, now);
    MemberUpdates(m, newConfigs, "", "", "", index, created.value.fileID, created.value.fileMD5, now);
    var err := db.UpdateServiceMember(m, newMember);
    ghost var mid := db.cfgMap;
    SwappedRefs(uuid, m.spec.configs, index, files, mid, mid, created.value, oldKey);
    FilesUpdated(md5, m.memberName, cfgfile, created.value, files, mid, db.memberMap != members);
    if err.Some? {
      return false;
    }
    // an error only leaves garbage
    var deleted := db.DeleteConfigFile(cfgfile.serviceUUID, cfgfile.fileID);
    OldGone(files, mid, db.cfgMap, newKey, oldKey, db.lossy, deleted);
    NewStays(md5, cfgfile, newContent, files, mid, db.cfgMap, created.value.fileID, db.lossy, deleted);
    FilesUpdated(md5, m.memberName, cfgfile, created.value, files, db.cfgMap, true);
    SwappedRefs(uuid, m.spec.configs, index, files, mid, db.cfgMap, created.value, oldKey);
    assert newMember.revision != members[key].revision;
    ok := true;
  }

  // ---------------------------------------------------------------- scaling out

  datatype ScaleResult = Scaled | SameSize | ScaleDown | ScaleFailed

  /** A service, new or running, whose first k configs have their members, and no fewer than its replicas. */
  ghost predicate Scalable(p: Plan, attr: ServiceAttr, t: Tables, k: nat) {
    && attr.serviceUUID in t.attrs && attr.spec.requireStaticIP == p.requireStaticIP
    && HasMembers(p, attr.serviceUUID, attr.spec.volumes, t.attrs[attr.serviceUUID].spec.serviceConfigs, t, k)
    && t.attrs[attr.serviceUUID].spec.replicas <= k
    && (t.attrs[attr.serviceUUID].revision == attr.revision ==> t.attrs[attr.serviceUUID] == attr)
  }

  /**
   The members come first, then the attr: wherever it stops, there are as many members as the stored
   attr has replicas, and what the service and its members refer to is stored. Replicas only go up, and
   only on the attr that was read. The members there were stay as they are, owners, updated files and all.
   */
  method ScaleService(db: DB, server: Server, cloud: Platform, md5: string -> string, attr: ServiceAttr, configs: seq<ReplicaConfig>,
                      ghost p: Plan, ghost k: nat)
    returns (r: ScaleResult, ghost n: nat)
    requires db.Valid() && server.Valid() && cloud.Valid() && ValidPlan(p) && configs == p.replicas && md5 == p.md5
    requires attr.meta.serviceName == p.service
    requires Scalable(p, attr, db.Contents(), k)
    requires forall z :: z in server.nets ==> server.nets[z] != []
    modifies db, server, cloud`volumes, cloud`claims, cloud`desired
    ensures db.Valid() && server.Valid() && cloud.Valid() && k <= n
    ensures db.Contents() == old(db.Contents()).(attrs := db.svcAttrMap, members := db.memberMap, configs := db.cfgMap, ips := db.ipMap)
    ensures Scalable(p, attr, db.Contents(), n) || db.svcAttrMap != old(db.svcAttrMap)
    ensures attr.serviceUUID in db.svcAttrMap && db.svcAttrMap[attr.serviceUUID].spec.replicas <= n
    ensures HasMembers(p, attr.serviceUUID, attr.spec.volumes, db.svcAttrMap[attr.serviceUUID].spec.serviceConfigs, db.Contents(), n)
    ensures MembersAdded(p, attr.serviceUUID, attr.spec.volumes, old(db.memberMap), k, db.memberMap, n)
    ensures FilesWritten(p, attr.serviceUUID, old(db.cfgMap), k, db.cfgMap, n) && IPsAdded(old(db.ipMap), db.ipMap, attr.serviceUUID)
    ensures db.svcAttrMap == old(db.svcAttrMap) ||
            (&& old(db.svcAttrMap)[attr.serviceUUID] == attr && |configs| > attr.spec.replicas
             && db.svcAttrMap == old(db.svcAttrMap)[attr.serviceUUID := db.svcAttrMap[attr.serviceUUID]]
             && ReplicasChanged(attr, db.svcAttrMap[attr.serviceUUID], |configs|))
    ensures cloud.desired == old(cloud.desired) || (cloud.desired == old(cloud.desired)[attr.meta.serviceName := |configs|] && n >= |configs|)
    ensures db.svcAttrMap != old(db.svcAttrMap) || r.Scaled? ==> cloud.desired == old(cloud.desired)[attr.meta.serviceName := |configs|]
    ensures Hashed(md5, old(db.cfgMap)) ==> Hashed(md5, db.cfgMap)
    ensures KeepsVolumes(p, attr.serviceUUID, attr.spec.volumes, old(db.memberMap), old(cloud.volumes), old(cloud.claims),
                         db.memberMap, cloud.volumes, cloud.claims)
    ensures KeepsPlaces(attr.spec.requireStaticIP, attr.serviceUUID, old(db.memberMap), old(server.nets), db.memberMap, server.nets)
    ensures (db.reliable && cloud.reliable && server.reliable && |configs| > attr.spec.replicas
             && AddressesThere(p, attr.serviceUUID, old(db.memberMap), old(db.ipMap), old(server.nets), server.subnets.Keys)
             && old(db.svcAttrMap)[attr.serviceUUID].revision == attr.revision
             && AllBacked(p, attr.serviceUUID, attr.spec.volumes, old(db.memberMap), old(cloud.volumes), old(cloud.claims))) ==> r.Scaled?
    ensures r.Scaled? ==> n >= |configs| && db.svcAttrMap != old(db.svcAttrMap)
    ensures |configs| < attr.spec.replicas <==> r.ScaleDown?
    ensures |configs| == attr.spec.replicas <==> r.SameSize?
    ensures r.SameSize? || r.ScaleDown? ==> db.Contents() == old(db.Contents())
  {
    hide HasMembers, ValidPlan, NetsOK, MembersAdded, FilesWritten, IPsAdded, Fresh, KeepsVolumes, KeepsPlaces, AllBacked, AddressesThere, Hashed;
    VolumesStay(p, attr.serviceUUID, attr.spec.volumes, db.memberMap, cloud.volumes, cloud.claims);
    PlacesStay(attr.spec.requireStaticIP, attr.serviceUUID, db.memberMap, server.nets);
    n := k;
    ghost var uuid, refs := attr.serviceUUID, db.svcAttrMap[attr.serviceUUID].spec.serviceConfigs;
    NothingAdded(p, uuid, attr.spec.volumes, db.memberMap, db.cfgMap, k);
    NoIPsAdded(db.ipMap, uuid);
    var replicas := |configs|;
    if replicas == attr.spec.replicas {
      return SameSize, n;
    }
    if replicas < attr.spec.replicas {
      return ScaleDown, n;
    }
    var now := *;
    var newAttr := UpdateServiceReplicas(attr, replicas, now);
    AttrUpdates(attr, Active, replicas, attr.spec.resource, 0, "", "", now);
    var created;
    created, n := CheckAndCreateServiceMembers(db, server, cloud, md5, replicas, newAttr.meta.serviceName, newAttr.serviceUUID,
                                               newAttr.meta.serviceType, newAttr.spec.requireStaticIP, newAttr.spec.volumes, configs,
                                               p, refs, k, false, db.Contents());
    if !created {
      return ScaleFailed, n;
    }
    var scaled := cloud.ScaleService(attr.meta.serviceName, replicas);
    if !scaled {
      return ScaleFailed, n;
    }
    ghost var t := db.Contents();
    var err := db.UpdateServiceAttr(attr, newAttr);
    HasMembersElsewhere(p, uuid, attr.spec.volumes, refs, t, db.Contents(), n);
    r := if err.None? then Scaled else ScaleFailed;
  }

  lemma HasMembersElsewhere(p: Plan, uuid: string, sv: ServiceVolumes, refs: seq<ConfigID>, t: Tables, t': Tables, k: nat)
    requires HasMembers(p, uuid, sv, refs, t, k) && t'.members == t.members && t'.configs == t.configs && t'.ips == t.ips
    ensures HasMembers(p, uuid, sv, refs, t', k)
  {
    hide MembersOf, IPsOK, RefsOK;
  }

  // ---------------------------------------------------------------- resources

  predicate Given(field: Option<int>, before: int, after: int) {
    after == if field.Some? then field.value else before
  }

  /** Exactly the given fields are replaced. */
  predicate Overridden(before: Resources, u: ResourceUpdate, after: Resources) {
    && Given(u.maxCPUUnits, before.maxCPUUnits, after.maxCPUUnits)
    && Given(u.reserveCPUUnits, before.reserveCPUUnits, after.reserveCPUUnits)
    && Given(u.maxMemMB, before.maxMemMB, after.maxMemMB)
    && Given(u.reserveMemMB, before.reserveMemMB, after.reserveMemMB)
  }

  const DEFAULT_MAX_CPU_UNITS: int := 0
  const DEFAULT_MAX_MEMORY_MB: int := 0

  /** CheckResource: a maximum that is set is not below the reservation. */
  predicate ValidResource(r: Resources) {
    && (r.maxCPUUnits == DEFAULT_MAX_CPU_UNITS || r.maxCPUUnits >= r.reserveCPUUnits)
    && (r.maxMemMB == DEFAULT_MAX_MEMORY_MB || r.maxMemMB >= r.reserveMemMB)
  }

  predicate Fits(max: int, reserve: int) { max != 0 ==> reserve <= max }

  /** The resources that the update leads to. */
  function Sets(field: Option<int>, before: int): int { if field.Some? then field.value else before }

  /** The update may be made: the service is there, of this type, and its new maxima cover its new reservations. */
  predicate MayUpdate(t: Tables, service: string, catalogServiceType: string, u: ResourceUpdate) {
    && service in t.services && t.services[service] in t.attrs
    && var a := t.attrs[t.services[service]];
       && a.spec.catalogServiceType == catalogServiceType
       && Fits(Sets(u.maxCPUUnits, a.spec.resource.maxCPUUnits), Sets(u.reserveCPUUnits, a.spec.resource.reserveCPUUnits))
       && Fits(Sets(u.maxMemMB, a.spec.resource.maxMemMB), Sets(u.reserveMemMB, a.spec.resource.reserveMemMB))
  }

  /** The resources of the service with those that the request sets. */
  method NewResources(before: Resources, req: ResourceUpdate) returns (res: Resources)
    ensures Overridden(before, req, res)
  {
    res := before;
    if req.maxCPUUnits.Some? {
      res := res.(maxCPUUnits := req.maxCPUUnits.value);
    }
    if req.reserveCPUUnits.Some? {
      res := res.(reserveCPUUnits := req.reserveCPUUnits.value);
    }
    if req.maxMemMB.Some? {
      res := res.(maxMemMB := req.maxMemMB.value);
    }
    if req.reserveMemMB.Some? {
      res := res.(reserveMemMB := req.reserveMemMB.value);
    }
  }

  lemma ValidWhenFits(before: Resources, u: ResourceUpdate, after: Resources)
    requires Overridden(before, u, after)
    ensures ValidResource(after) <==>
              && Fits(Sets(u.maxCPUUnits, before.maxCPUUnits), Sets(u.reserveCPUUnits, before.reserveCPUUnits))
              && Fits(Sets(u.maxMemMB, before.maxMemMB), Sets(u.reserveMemMB, before.reserveMemMB))
  {
  }

  /** The given resources go to the platform and to the stored attr, if they are valid; nothing else changes. */
  method UpdateServiceResource(db: DB, cloud: Platform, service: string, catalogServiceType: string, req: ResourceUpdate) returns (ok: bool)
    requires db.Valid() && cloud.Valid()
    requires forall u :: u in db.svcAttrMap ==> db.svcAttrMap[u].serviceUUID == u
    modifies db, cloud`updates
    ensures db.Valid() && cloud.Valid() && db.Contents() == old(db.Contents()).(attrs := db.svcAttrMap)
    ensures db.svcAttrMap != old(db.svcAttrMap) ==>
              && service in db.svcMap && db.svcMap[service] in db.svcAttrMap && db.svcMap[service] in old(db.svcAttrMap)
              && var u := db.svcMap[service];
                 && db.svcAttrMap == old(db.svcAttrMap)[u := db.svcAttrMap[u]]
                 && Overridden(old(db.svcAttrMap)[u].spec.resource, req, db.svcAttrMap[u].spec.resource)
                 && ResourcesChanged(old(db.svcAttrMap)[u], db.svcAttrMap[u], db.svcAttrMap[u].spec.resource)
    ensures db.svcAttrMap != old(db.svcAttrMap) || cloud.updates != old(cloud.updates) ==>
              MayUpdate(old(db.Contents()), service, catalogServiceType, req)
    ensures cloud.updates == old(cloud.updates) || cloud.updates == old(cloud.updates)[service := req]
    ensures db.svcAttrMap != old(db.svcAttrMap) ==> cloud.updates == old(cloud.updates)[service := req]
    ensures ok ==> db.svcAttrMap != old(db.svcAttrMap)
    ensures db.reliable && cloud.reliable ==> (ok <==> MayUpdate(old(db.Contents()), service, catalogServiceType, req))
  {
    hide Overridden, ValidResource, Fits, Sets;
    var svc := db.GetService(service);
    if svc.Error? {
      return false;
    }
    var got := db.GetServiceAttr(svc.value);
    if got.Error? {
      return false;
    }
    var attr := got.value;
    if attr.spec.catalogServiceType != catalogServiceType {
      return false;
    }
    var res := NewResources(attr.spec.resource, req);
    ValidWhenFits(attr.spec.resource, req, res);
    if !ValidResource(res) {
      return false;
    }
    var updated := cloud.UpdateService(service, req);
    if !updated {
      return false;
    }
    var now := *;
    var newAttr := UpdateServiceResources(attr, res, now);
    AttrUpdates(attr, Active, 0, res, 0, "", "", now);
    var err := db.UpdateServiceAttr(attr, newAttr);
    assert newAttr.revision != attr.revision;
    ok := err.None?;
  }
}
