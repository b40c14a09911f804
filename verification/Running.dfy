/**
 A service that runs: what any number of guarded updates (of member owners, pkg/plugins/volume/volume.go
 and pkg/plugins/network/network.go, and of config files, pkg/managesvc/server.go) and of scale-outs
 leave is what the next of them needs.
 */
module Running {
  import opened Text
  import opened NextIP
  import opened Records
  import opened Store
  import opened StaticIPs
  import opened ConfigFiles
  import opened Members
  import opened Cloud
  import ConfigFileIDs
  import C = Creation
  import Devices
  import U = Updates
  import V = ServiceDevices
  import Vol = Volumes

  /** A hex digest. */
  ghost predicate IsHash(md5: string -> string) {
    forall s :: md5(s) != "" && ConfigFileIDs.SEP !in md5(s)
  }

  /** The service and its members have different names. */
  ghost predicate DifferentNames(p: Plan) {
    IsHash(p.md5) && forall o: nat, q: nat :: o < q <= |p.replicas| ==> PrefixAt(p, o) != PrefixAt(p, q)
  }

  ghost predicate IsVersion(md5: string -> string, prefix: string, c: ConfigID) {
    exists v: int :: c.fileID == ConfigFileIDs.GenConfigFileID(prefix, md5(c.fileName), v)
  }

  /** Every reference is to a version of one of the owner's own files, and to one version of each. */
  ghost predicate OwnRefs(md5: string -> string, prefix: string, configs: seq<ConfigID>) {
    && (forall i :: 0 <= i < |configs| ==> IsVersion(md5, prefix, configs[i]))
    && forall i, j :: 0 <= i < j < |configs| ==> md5(configs[i].fileName) != md5(configs[j].fileName)
  }

  ghost predicate AllOwnRefs(p: Plan, uuid: string, refs: seq<ConfigID>, ms: map<Key, ServiceMember>, k: nat) {
    && k <= |p.replicas| && (forall i :: 0 <= i < k ==> MemberKey(p, uuid, i) in ms)
    && forall o: nat :: o <= k ==> OwnRefs(p.md5, PrefixAt(p, o), RefsAt(p, uuid, refs, ms, o))
  }

  /** The service has the attr and the members of its first k configs, and their config files. */
  ghost predicate Runs(p: Plan, uuid: string, t: Tables, k: nat) {
    && uuid in t.attrs
    && HasMembers(p, uuid, t.attrs[uuid].spec.volumes, t.attrs[uuid].spec.serviceConfigs, t, k)
    && AllOwnRefs(p, uuid, t.attrs[uuid].spec.serviceConfigs, t.members, k)
  }

  // ---------------------------------------------------------------- references of different owners

  lemma VersionsDiffer(md5: string -> string, prefix: string, c: ConfigID, prefix': string, c': ConfigID)
    requires IsHash(md5) && IsVersion(md5, prefix, c) && IsVersion(md5, prefix', c')
    requires prefix != prefix' || md5(c.fileName) != md5(c'.fileName)
    ensures c.fileID != c'.fileID
  {
    hide ConfigFileIDs.GenConfigFileID;
    var v: int :| c.fileID == ConfigFileIDs.GenConfigFileID(prefix, md5(c.fileName), v);
    var v': int :| c'.fileID == ConfigFileIDs.GenConfigFileID(prefix', md5(c'.fileName), v');
    if c.fileID == c'.fileID {
      ConfigFileIDs.AnyIDInjective(prefix, md5(c.fileName), v, prefix', md5(c'.fileName), v');
    }
  }

  /** The references of one owner are to different files: the updates may be applied. */
  lemma OwnRefsDiffer(md5: string -> string, prefix: string, configs: seq<ConfigID>)
    requires IsHash(md5) && OwnRefs(md5, prefix, configs)
    ensures U.DifferentFiles(configs)
  {
    hide IsVersion, IsHash;
    forall i, j | 0 <= i < j < |configs| ensures configs[i].fileID != configs[j].fileID {
      VersionsDiffer(md5, prefix, configs[i], prefix, configs[j]);
    }
  }

  lemma InitialIsVersion(p: Plan, o: nat, i: nat)
    requires o <= |p.replicas| && i < |ConfigsAt(p, o)|
    ensures IsVersion(p.md5, PrefixAt(p, o), IDOf(p.md5, PrefixAt(p, o), ConfigsAt(p, o)[i]))
    ensures IDOf(p.md5, PrefixAt(p, o), ConfigsAt(p, o)[i]).fileID == IDAt(p, o, i)
  {
    hide ConfigFileIDs.GenConfigFileID;
  }

  /** No reference of an owner is to an initial file of another one. */
  lemma OwnIsNotLater(p: Plan, k: nat, o: nat, configs: seq<ConfigID>)
    requires DifferentNames(p) && o <= k <= |p.replicas| && OwnRefs(p.md5, PrefixAt(p, o), configs)
    ensures NotLater(p, k, configs)
  {
    hide IsVersion, IsHash, FileID;
    forall a: nat, q: nat, j: nat | a < |configs| && k < q <= |p.replicas| && j < |ConfigsAt(p, q)|
      ensures configs[a].fileID != IDAt(p, q, j)
    {
      InitialIsVersion(p, q, j);
      VersionsDiffer(p.md5, PrefixAt(p, o), configs[a], PrefixAt(p, q), IDOf(p.md5, PrefixAt(p, q), ConfigsAt(p, q)[j]));
    }
  }

  // ---------------------------------------------------------------- after a creation

  lemma InitialAreOwn(p: Plan, o: nat)
    requires ValidPlan(p) && o <= |p.replicas|
    ensures OwnRefs(p.md5, PrefixAt(p, o), IDsOf(p.md5, PrefixAt(p, o), ConfigsAt(p, o)))
  {
    var cfgs := ConfigsAt(p, o);
    OwnIDsDiffer(p, o);
    hide IsVersion;
    forall i | 0 <= i < |cfgs| ensures IsVersion(p.md5, PrefixAt(p, o), IDsOf(p.md5, PrefixAt(p, o), cfgs)[i]) {
      InitialIsVersion(p, o, i);
    }
    hide ConfigFileIDs.GenConfigFileID;
    forall i, j | 0 <= i < j < |cfgs| ensures p.md5(cfgs[i].fileName) != p.md5(cfgs[j].fileName) {
      assert FileID(p.md5, PrefixAt(p, o), cfgs[i].fileName) != FileID(p.md5, PrefixAt(p, o), cfgs[j].fileName);
    }
  }

  /** What a creation has made runs. */
  lemma CreatedRuns(p: Plan, uuid: string, before: Tables, t: Tables, k: nat)
    requires ValidPlan(p) && uuid in t.attrs && Fresh(p, uuid, t.attrs[uuid].spec.volumes, before, t, k)
    requires FilesOf(p, uuid, 0, t.configs) && t.attrs[uuid].spec.serviceConfigs == IDsOf(p.md5, p.service, p.serviceConfigs)
    ensures Runs(p, uuid, t, k)
  {
    hide ValidPlan, Unused, FilesOK, FilesOf, IPsOK, IPsAdded, WellKeyed, OwnRefs, IDsOf, HasMembers;
    var refs := IDsOf(p.md5, p.service, p.serviceConfigs);
    MadeHasMembers(p, uuid, t.attrs[uuid].spec.volumes, before, t, k);
    forall o: nat | o <= k ensures OwnRefs(p.md5, PrefixAt(p, o), RefsAt(p, uuid, refs, t.members, o)) {
      InitialAreOwn(p, o);
      if o > 0 { assert IsMember(p, uuid, t.attrs[uuid].spec.volumes, o - 1, t.members[MemberKey(p, uuid, o - 1)]); }
    }
  }

  /** A complete creation runs, with a member for each replica. */
  lemma CompleteRuns(j: C.Job, base: Tables, t: Tables)
    requires C.ValidJob(j) && C.Complete(j, base, t)
    ensures j.req.service in t.services && t.services[j.req.service] in t.attrs && j.req.replicas >= 0
    ensures t.attrs[t.services[j.req.service]].spec.replicas == j.req.replicas
    ensures Runs(C.PlanOf(j), t.services[j.req.service], t, j.req.replicas)
  {
    var u := t.services[j.req.service];
    hide V.HasDevices, Made, C.VolumesOf, FilesOf, C.NewUUID, C.IsAttr, Runs, C.ValidJob;
    assert !C.WithoutAttr(j, u, base, t);
    var k: nat :| C.WithAttr(j, u, base, t, k);
    assert k == j.req.replicas;
    hide C.WithAttr, C.WithService, C.Complete;
    AttrRuns(j, base, t, u, k);
  }

  lemma AttrRuns(j: C.Job, base: Tables, t: Tables, u: string, k: nat)
    requires C.ValidJob(j) && C.At(j, base, t, u) && C.WithAttr(j, u, base, t, k)
    ensures u in t.attrs && t.attrs[u].spec.replicas == j.req.replicas && Runs(C.PlanOf(j), u, t, k)
  {
    C.MadeSoFar(j, base, t, u, k);
    hide V.HasDevices, Made, C.VolumesOf, FilesOf, C.NewUUID, ValidPlan, Fresh, HasMembers, IDsOf, Runs, C.WithService, C.ValidJob;
    CreatedRuns(C.PlanOf(j), u, base, t, k);
  }

  // ---------------------------------------------------------------- updates of a member

  /** One member is replaced by one with its name, zone, volumes and address. */
  ghost predicate MemberReplaced(p: Plan, uuid: string, ms: map<Key, ServiceMember>, i: nat, ms': map<Key, ServiceMember>) {
    && i < |p.replicas| && MemberKey(p, uuid, i) in ms && MemberKey(p, uuid, i) in ms'
    && var m, m' := ms[MemberKey(p, uuid, i)], ms'[MemberKey(p, uuid, i)];
       && ms' == ms[MemberKey(p, uuid, i) := m']
       && m'.spec.availableZone == m.spec.availableZone && m'.spec.volumes == m.spec.volumes && m'.spec.staticIP == m.spec.staticIP
  }

  lemma ReplacedMembers(p: Plan, uuid: string, sv: ServiceVolumes, ms: map<Key, ServiceMember>, ips: map<IP, ServiceStaticIP>,
                        i: nat, ms': map<Key, ServiceMember>, k: nat)
    requires MembersOf(p, uuid, sv, ms, k) && IPsOK(p, uuid, ms, ips, k) && MemberReplaced(p, uuid, ms, i, ms')
    ensures MembersOf(p, uuid, sv, ms', k) && IPsOK(p, uuid, ms', ips, k)
  {
    hide VolumesFit;
    assert forall j :: 0 <= j < k ==> IPOf(p, uuid, ms', j) == IPOf(p, uuid, ms, j);
  }

  /** An update of a member leaves its volumes and its address where they are. */
  lemma ReplacedKeepsVolumes(p: Plan, uuid: string, sv: ServiceVolumes, ms: map<Key, ServiceMember>, i: nat, ms': map<Key, ServiceMember>,
                             vols: map<string, Volume>, claims: map<Claim, string>, nets: Nets)
    requires MemberReplaced(p, uuid, ms, i, ms')
    ensures AllBacked(p, uuid, sv, ms, vols, claims) ==> AllBacked(p, uuid, sv, ms', vols, claims)
    ensures Placed(uuid, ms, nets) ==> Placed(uuid, ms', nets)
  {
    hide OnZone;
    if AllBacked(p, uuid, sv, ms, vols, claims) {
      Vol.FewerStayBacked(p.service, uuid, sv, p.replicas, ms, vols, claims, ms', claims);
    }
  }

  /** A guarded update of a member's owner, done or not. */
  lemma OwnerUpdateRuns(p: Plan, uuid: string, t: Tables, t': Tables, k: nat, i: nat, taskID: string, containerInstanceID: string,
                        serverInstanceID: string)
    requires Runs(p, uuid, t, k) && i < k && MemberKey(p, uuid, i) in t.members && MemberKey(p, uuid, i) in t'.members
    requires t' == t ||
             (var m, m' := t.members[MemberKey(p, uuid, i)], t'.members[MemberKey(p, uuid, i)];
              && t' == t.(members := t.members[MemberKey(p, uuid, i) := m'])
              && OwnerChanged(m, m', taskID, containerInstanceID, serverInstanceID))
    ensures Runs(p, uuid, t', k)
  {
    if t' != t {
      var refs := t.attrs[uuid].spec.serviceConfigs;
      ReplacedMembers(p, uuid, t.attrs[uuid].spec.volumes, t.members, t.ips, i, t'.members, k);
      hide MembersOf, IPsOK, OwnRefs, AllStored, NotLater;
      forall o: nat | o <= k ensures RefsAt(p, uuid, refs, t'.members, o) == RefsAt(p, uuid, refs, t.members, o) {}
    }
  }

  // ---------------------------------------------------------------- updates of config files

  /** The reference of the update is moved; the others are as they were. */
  ghost predicate RefMoved(p: Plan, uuid: string, o: nat, index: nat, c: ConfigID, refs: seq<ConfigID>, ms: map<Key, ServiceMember>,
                           refs': seq<ConfigID>, ms': map<Key, ServiceMember>, k: nat) {
    && o <= k <= |p.replicas|
    && (forall i :: 0 <= i < k ==> MemberKey(p, uuid, i) in ms && MemberKey(p, uuid, i) in ms')
    && index < |RefsAt(p, uuid, refs, ms, o)|
    && RefsAt(p, uuid, refs', ms', o) == RefsAt(p, uuid, refs, ms, o)[index := c]
    && c.fileName == RefsAt(p, uuid, refs, ms, o)[index].fileName
    && forall q: nat :: q <= k && q != o ==> RefsAt(p, uuid, refs', ms', q) == RefsAt(p, uuid, refs, ms, q)
  }

  lemma OtherStaysStored(uuid: string, configs: seq<ConfigID>, files: map<Key, ConfigFile>, files': map<Key, ConfigFile>,
                         newKey: Key, oldKey: Key)
    requires AllStored(uuid, configs, files) && U.OneReplaced(files, files', newKey, oldKey, true)
    requires forall a :: 0 <= a < |configs| ==> (uuid, configs[a].fileID) != oldKey
    ensures AllStored(uuid, configs, files')
  {
  }

  lemma OthersStored(p: Plan, uuid: string, o: nat, q: nat, own: seq<ConfigID>, index: nat, others: seq<ConfigID>,
                     files: map<Key, ConfigFile>, files': map<Key, ConfigFile>, newKey: Key)
    requires DifferentNames(p) && o <= |p.replicas| && q <= |p.replicas| && o != q && index < |own|
    requires OwnRefs(p.md5, PrefixAt(p, o), own) && OwnRefs(p.md5, PrefixAt(p, q), others) && AllStored(uuid, others, files)
    requires U.OneReplaced(files, files', newKey, (uuid, own[index].fileID), true)
    ensures AllStored(uuid, others, files')
  {
    hide IsVersion, IsHash, AllStored, U.OneReplaced;
    forall a | 0 <= a < |others| ensures others[a].fileID != own[index].fileID {
      VersionsDiffer(p.md5, PrefixAt(p, q), others[a], PrefixAt(p, o), own[index]);
    }
    OtherStaysStored(uuid, others, files, files', newKey, (uuid, own[index].fileID));
  }

  lemma OwnMoved(md5: string -> string, prefix: string, configs: seq<ConfigID>, index: nat, c: ConfigID)
    requires OwnRefs(md5, prefix, configs) && index < |configs| && c.fileName == configs[index].fileName && IsVersion(md5, prefix, c)
    ensures OwnRefs(md5, prefix, configs[index := c])
  {
    hide IsVersion;
  }

  lemma OwnStored(md5: string -> string, prefix: string, uuid: string, configs: seq<ConfigID>, index: nat, c: ConfigID,
                  files: map<Key, ConfigFile>, files': map<Key, ConfigFile>)
    requires IsHash(md5) && OwnRefs(md5, prefix, configs) && AllStored(uuid, configs, files) && index < |configs|
    requires c.fileName == configs[index].fileName && c.fileID != configs[index].fileID && Stored(uuid, c, files')
    requires U.OneReplaced(files, files', (uuid, c.fileID), (uuid, configs[index].fileID), true)
    ensures AllStored(uuid, configs[index := c], files')
  {
    OwnRefsDiffer(md5, prefix, configs);
    hide OwnRefs, AllStored, U.DifferentFiles, U.OneReplaced, IsHash;
    assert c == configs[index].(fileID := c.fileID, fileMD5 := c.fileMD5);
    U.SwapKeepsRefs(uuid, configs, index, files, files', c.fileID, c.fileMD5);
  }

  /** The references after an update of one of them are stored, and each is to a version of a file of its owner. */
  lemma RefMovedRuns(p: Plan, uuid: string, o: nat, index: nat, c: ConfigID, refs: seq<ConfigID>, ms: map<Key, ServiceMember>,
                     files: map<Key, ConfigFile>, refs': seq<ConfigID>, ms': map<Key, ServiceMember>, files': map<Key, ConfigFile>, k: nat)
    requires DifferentNames(p) && RefsOK(p, uuid, refs, ms, files, k) && AllOwnRefs(p, uuid, refs, ms, k)
    requires RefMoved(p, uuid, o, index, c, refs, ms, refs', ms', k)
    requires c.fileID != RefsAt(p, uuid, refs, ms, o)[index].fileID && Stored(uuid, c, files') && IsVersion(p.md5, PrefixAt(p, o), c)
    requires U.OneReplaced(files, files', (uuid, c.fileID), (uuid, RefsAt(p, uuid, refs, ms, o)[index].fileID), true)
    ensures RefsOK(p, uuid, refs', ms', files', k) && AllOwnRefs(p, uuid, refs', ms', k)
  {
    var own := RefsAt(p, uuid, refs, ms, o);
    hide OwnRefs, AllStored, NotLater, IsVersion, U.OneReplaced, DifferentNames, IsHash, Stored;
    forall q: nat | q <= k
      ensures OwnRefs(p.md5, PrefixAt(p, q), RefsAt(p, uuid, refs', ms', q))
      ensures AllStored(uuid, RefsAt(p, uuid, refs', ms', q), files') && NotLater(p, k, RefsAt(p, uuid, refs', ms', q))
    {
      OwnerMoved(p, uuid, o, index, c, own, q, RefsAt(p, uuid, refs, ms, q), files, files');
      assert RefsAt(p, uuid, refs', ms', q) == if q == o then own[index := c] else RefsAt(p, uuid, refs, ms, q);
      OwnIsNotLater(p, k, q, RefsAt(p, uuid, refs', ms', q));
    }
  }

  lemma OwnerMoved(p: Plan, uuid: string, o: nat, index: nat, c: ConfigID, own: seq<ConfigID>, q: nat, configs: seq<ConfigID>,
                   files: map<Key, ConfigFile>, files': map<Key, ConfigFile>)
    requires DifferentNames(p) && o <= |p.replicas| && q <= |p.replicas| && index < |own| && (q == o ==> configs == own)
    requires OwnRefs(p.md5, PrefixAt(p, o), own) && OwnRefs(p.md5, PrefixAt(p, q), configs) && AllStored(uuid, configs, files)
    requires c.fileName == own[index].fileName && c.fileID != own[index].fileID
    requires Stored(uuid, c, files') && IsVersion(p.md5, PrefixAt(p, o), c)
    requires U.OneReplaced(files, files', (uuid, c.fileID), (uuid, own[index].fileID), true)
    ensures var configs' := if q == o then own[index := c] else configs;
            OwnRefs(p.md5, PrefixAt(p, q), configs') && AllStored(uuid, configs', files')
  {
    hide OwnRefs, AllStored, IsVersion, U.OneReplaced, IsHash, Stored;
    if q == o {
      OwnMoved(p.md5, PrefixAt(p, o), own, index, c);
      OwnStored(p.md5, PrefixAt(p, o), uuid, own, index, c, files, files');
    } else {
      OthersStored(p, uuid, o, q, own, index, configs, files, files', (uuid, c.fileID));
    }
  }

  lemma NewIsVersion(md5: string -> string, prefix: string, f: ConfigFile, c: ConfigID)
    requires U.NewFileID(md5, prefix, f) == Some(c.fileID) && c.fileName == f.fileName
    ensures IsVersion(md5, prefix, c)
  {
    hide ConfigFileIDs.GenConfigFileID, ConfigFileIDs.GetConfigFileVersion;
  }

  lemma NoSwapRuns(p: Plan, uuid: string, refs: seq<ConfigID>, ms: map<Key, ServiceMember>, k: nat, md5: string -> string, prefix: string,
                   f: ConfigFile, newMD5: string, files: map<Key, ConfigFile>, files': map<Key, ConfigFile>)
    requires RefsOK(p, uuid, refs, ms, files, k) && U.FileUpdated(md5, prefix, f, newMD5, files, files', false)
    ensures RefsOK(p, uuid, refs, ms, files', k)
  {
    hide U.NewFileID, NotLater;
    forall o: nat | o <= k ensures AllStored(uuid, RefsAt(p, uuid, refs, ms, o), files') {
      assert AllStored(uuid, RefsAt(p, uuid, refs, ms, o), files);
    }
  }

  /** An update of a member's config file, as far as it gets. */
  lemma MemberFileUpdateRuns(p: Plan, uuid: string, t: Tables, t': Tables, k: nat, i: nat, index: nat, f: ConfigFile, newMD5: string)
    requires DifferentNames(p) && Runs(p, uuid, t, k) && i < k && MemberKey(p, uuid, i) in t.members
    requires var m := t.members[MemberKey(p, uuid, i)];
             index < |m.spec.configs| && f.serviceUUID == uuid && f.fileID == m.spec.configs[index].fileID
             && f.fileName == m.spec.configs[index].fileName
    requires t' == t.(members := t'.members, configs := t'.configs)
    requires U.FileUpdated(p.md5, p.replicas[i].memberName, f, newMD5, t.configs, t'.configs, t'.members != t.members)
    requires t'.members != t.members ==>
               && MemberKey(p, uuid, i) in t'.members
               && var m, m' := t.members[MemberKey(p, uuid, i)], t'.members[MemberKey(p, uuid, i)];
                  && t'.members == t.members[MemberKey(p, uuid, i) := m'] && U.NewFileID(p.md5, p.replicas[i].memberName, f).Some?
                  && MemberConfigChanged(m, m', index, U.NewFileID(p.md5, p.replicas[i].memberName, f).value, newMD5)
    ensures Runs(p, uuid, t', k)
  {
    var refs, name := t.attrs[uuid].spec.serviceConfigs, p.replicas[i].memberName;
    if t'.members == t.members {
      hide MembersOf, IPsOK, RefsOK, AllOwnRefs, U.FileUpdated;
      NoSwapRuns(p, uuid, refs, t.members, k, p.md5, name, f, newMD5, t.configs, t'.configs);
    } else {
      hide MembersOf, IPsOK, RefsOK, U.OneReplaced, U.NewFileID, RefChanged;
      var m, m' := t.members[MemberKey(p, uuid, i)], t'.members[MemberKey(p, uuid, i)];
      var newID := U.NewFileID(p.md5, name, f).value;
      var c := m.spec.configs[index].(fileID := newID, fileMD5 := newMD5);
      NewIsVersion(p.md5, name, f, c);
      RefPointed(m.spec.configs, m'.spec.configs, index, newID, newMD5);
      assert Stored(uuid, c, t'.configs);
      assert MemberReplaced(p, uuid, t.members, i, t'.members);
      ReplacedMembers(p, uuid, t.attrs[uuid].spec.volumes, t.members, t.ips, i, t'.members, k);
      hide AllOwnRefs, RefMoved, Stored, IsVersion, MemberReplaced, DifferentMembers, DifferentNames;
      NamesDiffer(p, uuid, i, k);
      MemberRefMoved(p, uuid, i, index, c, refs, t.members, t'.members, k);
      RefMovedRuns(p, uuid, i + 1, index, c, refs, t.members, t.configs, refs, t'.members, t'.configs, k);
    }
  }

  lemma RefPointed(a: seq<ConfigID>, b: seq<ConfigID>, index: nat, fileID: string, fileMD5: string)
    requires RefChanged(a, b, index, fileID, fileMD5)
    ensures b == a[index := a[index].(fileID := fileID, fileMD5 := fileMD5)]
  {
  }

  lemma MemberRefMoved(p: Plan, uuid: string, i: nat, index: nat, c: ConfigID, refs: seq<ConfigID>, ms: map<Key, ServiceMember>,
                       ms': map<Key, ServiceMember>, k: nat)
    requires AllOwnRefs(p, uuid, refs, ms, k) && i < k && MemberReplaced(p, uuid, ms, i, ms')
    requires var own := ms[MemberKey(p, uuid, i)].spec.configs;
             index < |own| && ms'[MemberKey(p, uuid, i)].spec.configs == own[index := c] && c.fileName == own[index].fileName
    requires DifferentMembers(p, uuid, i, k)
    ensures RefMoved(p, uuid, i + 1, index, c, refs, ms, refs, ms', k)
  {
    hide OwnRefs;
  }

  ghost predicate DifferentMembers(p: Plan, uuid: string, i: nat, k: nat) {
    i < k <= |p.replicas| && forall j :: 0 <= j < k && j != i ==> MemberKey(p, uuid, j) != MemberKey(p, uuid, i)
  }

  lemma NamesDiffer(p: Plan, uuid: string, i: nat, k: nat)
    requires DifferentNames(p) && i < k <= |p.replicas|
    ensures DifferentMembers(p, uuid, i, k)
  {
    forall j | 0 <= j < k && j != i ensures MemberKey(p, uuid, j) != MemberKey(p, uuid, i) {
      assert PrefixAt(p, j + 1) != PrefixAt(p, i + 1);
    }
  }

  /** An update of a config file of the service, as far as it gets. */
  lemma ServiceFileUpdateRuns(p: Plan, uuid: string, t: Tables, t': Tables, k: nat, index: nat, f: ConfigFile, newMD5: string)
    requires DifferentNames(p) && Runs(p, uuid, t, k) && uuid in t'.attrs
    requires var refs := t.attrs[uuid].spec.serviceConfigs;
             index < |refs| && f.serviceUUID == uuid && f.fileID == refs[index].fileID && f.fileName == refs[index].fileName
    requires t' == t.(attrs := t'.attrs, configs := t'.configs)
    requires U.FileUpdated(p.md5, p.service, f, newMD5, t.configs, t'.configs, t'.attrs != t.attrs)
    requires t'.attrs != t.attrs ==>
               && U.NewFileID(p.md5, p.service, f).Some?
               && ConfigChanged(t.attrs[uuid], t'.attrs[uuid], index, U.NewFileID(p.md5, p.service, f).value, newMD5)
    ensures Runs(p, uuid, t', k)
  {
    var refs := t.attrs[uuid].spec.serviceConfigs;
    if t'.attrs == t.attrs {
      hide MembersOf, IPsOK, RefsOK, AllOwnRefs, U.FileUpdated;
      NoSwapRuns(p, uuid, refs, t.members, k, p.md5, p.service, f, newMD5, t.configs, t'.configs);
    } else {
      var c := refs[index].(fileID := U.NewFileID(p.md5, p.service, f).value, fileMD5 := newMD5);
      NewIsVersion(p.md5, p.service, f, c);
      assert Stored(uuid, c, t'.configs);
      RefPointed(refs, t'.attrs[uuid].spec.serviceConfigs, index, c.fileID, newMD5);
      hide RefChanged;
      assert RefMoved(p, uuid, 0, index, c, refs, t.members, refs[index := c], t.members, k) by {
        hide OwnRefs, U.FileUpdated, MembersOf, IPsOK, RefsOK, IsVersion;
      }
      hide U.NewFileID, IsVersion, DifferentNames, MembersOf, IPsOK, RefsOK, AllOwnRefs, RefMoved, Stored, U.OneReplaced;
      RefMovedRuns(p, uuid, 0, index, c, refs, t.members, t.configs, refs[index := c], t.members, t'.configs, k);
    }
  }

  // ---------------------------------------------------------------- scaling out

  /** A plan with more configs, of which the first k have the names and zones of the members. */
  ghost predicate LongerPlan(p: Plan, p': Plan, k: nat) {
    && k <= |p.replicas| && k <= |p'.replicas| && p'.service == p.service && p'.md5 == p.md5 && p'.requireStaticIP == p.requireStaticIP
    && forall i :: 0 <= i < k ==> p'.replicas[i].memberName == p.replicas[i].memberName && p'.replicas[i].zone == p.replicas[i].zone
  }

  /** A running service may be scaled out by any such plan, whatever the configs of the members there are say. */
  lemma RunsWithMore(p: Plan, p': Plan, uuid: string, t: Tables, k: nat)
    requires Runs(p, uuid, t, k) && LongerPlan(p, p', k) && DifferentNames(p')
    ensures Runs(p', uuid, t, k)
  {
    var refs := t.attrs[uuid].spec.serviceConfigs;
    assert forall i :: 0 <= i < k ==> MemberKey(p', uuid, i) == MemberKey(p, uuid, i);
    MembersOfMore(p, p', uuid, t.attrs[uuid].spec.volumes, t.members, t.ips, k);
    hide MembersOf, IPsOK, OwnRefs, AllStored, NotLater, DifferentNames;
    forall o: nat | o <= k
      ensures RefsAt(p', uuid, refs, t.members, o) == RefsAt(p, uuid, refs, t.members, o) && PrefixAt(p', o) == PrefixAt(p, o)
      ensures NotLater(p', k, RefsAt(p', uuid, refs, t.members, o))
    {
      OwnIsNotLater(p', k, o, RefsAt(p, uuid, refs, t.members, o));
    }
  }

  lemma MembersOfMore(p: Plan, p': Plan, uuid: string, sv: ServiceVolumes, ms: map<Key, ServiceMember>,
                      ips: map<IP, ServiceStaticIP>, k: nat)
    requires MembersOf(p, uuid, sv, ms, k) && IPsOK(p, uuid, ms, ips, k) && LongerPlan(p, p', k)
    ensures MembersOf(p', uuid, sv, ms, k) && IPsOK(p', uuid, ms, ips, k)
  {
    hide VolumesFit;
    assert forall i :: 0 <= i < k ==> MemberKey(p', uuid, i) == MemberKey(p, uuid, i);
    forall n | (uuid, n) in ms ensures exists i :: 0 <= i < k && n == p'.replicas[i].memberName {
      var i :| 0 <= i < k && n == p.replicas[i].memberName;
      assert p'.replicas[i].memberName == n;
    }
    assert forall i :: 0 <= i < k ==> IPOf(p', uuid, ms, i) == IPOf(p, uuid, ms, i);
  }

  /** A scale-out of a running service leaves a running service, with the members that it made. */
  lemma ScaledRuns(p: Plan, uuid: string, t: Tables, t': Tables, k: nat, n: nat)
    requires ValidPlan(p) && Runs(p, uuid, t, k) && uuid in t'.attrs && n <= |p.replicas|
    requires t'.attrs[uuid].spec.volumes == t.attrs[uuid].spec.volumes
    requires t'.attrs[uuid].spec.serviceConfigs == t.attrs[uuid].spec.serviceConfigs
    requires HasMembers(p, uuid, t.attrs[uuid].spec.volumes, t.attrs[uuid].spec.serviceConfigs, t', n)
    requires MembersAdded(p, uuid, t.attrs[uuid].spec.volumes, t.members, k, t'.members, n)
    ensures Runs(p, uuid, t', n)
  {
    var refs := t.attrs[uuid].spec.serviceConfigs;
    hide MembersOf, IPsOK, OwnRefs, AllStored, NotLater, ValidPlan, WellKeyed, IDsOf;
    forall o: nat | o <= n ensures OwnRefs(p.md5, PrefixAt(p, o), RefsAt(p, uuid, refs, t'.members, o)) {
      if o <= k {
        assert RefsAt(p, uuid, refs, t'.members, o) == RefsAt(p, uuid, refs, t.members, o);
      } else {
        assert IsMember(p, uuid, t.attrs[uuid].spec.volumes, o - 1, t'.members[MemberKey(p, uuid, o - 1)]);
        InitialAreOwn(p, o);
      }
    }
  }
}
