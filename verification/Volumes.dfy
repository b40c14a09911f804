/**
 The volumes of members: createVolume (pkg/managesvc/service.go), and that no two devices have one volume.
 */
module Volumes {
  import opened Text
  import opened Records
  import opened Store
  import opened Cloud

  function VolumeID(v: MemberVolumes, journal: bool): string { if journal then v.journalVolumeID else v.primaryVolumeID }

  /** The volume that the service asks for. */
  function Wanted(sv: ServiceVolumes, journal: bool): ServiceVolume { if journal then sv.journalVolume else sv.primaryVolume }

  /** The member has the volume, for its primary or its journal device. */
  predicate Holds(ms: map<Key, ServiceMember>, key: Key, journal: bool, id: string) {
    key in ms && id != "" && VolumeID(ms[key].spec.volumes, journal) == id
  }

  /** No volume is held twice, by any members of any services. */
  ghost predicate Apart(ms: map<Key, ServiceMember>) {
    forall key: Key, journal, key': Key, journal', id ::
      Holds(ms, key, journal, id) && Holds(ms, key', journal', id) ==> key == key' && journal == journal'
  }

  ghost predicate Known(ms: map<Key, ServiceMember>, vols: map<string, Volume>) {
    forall key: Key, journal, id :: Holds(ms, key, journal, id) ==> id in vols
  }

  /** The volumes of the service's members are in their zones, and as the service asked for. */
  ghost predicate AsWanted(uuid: string, sv: ServiceVolumes, ms: map<Key, ServiceMember>, vols: map<string, Volume>) {
    forall n, journal, id :: Holds(ms, (uuid, n), journal, id) ==>
      id in vols && vols[id] == Volume(ms[(uuid, n)].spec.availableZone, Wanted(sv, journal))
  }

  /** What the platform has for a member of the plan fits it, and nobody else holds it. */
  ghost predicate ClaimFits(service: string, uuid: string, sv: ServiceVolumes, c: ReplicaConfig, journal: bool,
                            ms: map<Key, ServiceMember>, vols: map<string, Volume>, claims: map<Claim, string>) {
    (service, c.memberName, journal) in claims ==>
      var id := claims[(service, c.memberName, journal)];
      && id in vols && vols[id] == Volume(c.zone, Wanted(sv, journal))
      && forall key: Key, other :: Holds(ms, key, other, id) ==> key == (uuid, c.memberName) && other == journal
  }

  ghost predicate ClaimsFit(service: string, uuid: string, sv: ServiceVolumes, replicas: seq<ReplicaConfig>,
                            ms: map<Key, ServiceMember>, vols: map<string, Volume>, claims: map<Claim, string>) {
    && (forall c, journal :: c in replicas ==> ClaimFits(service, uuid, sv, c, journal, ms, vols, claims))
    && ClaimsApart(vols, claims)
  }

  /** The platform keeps every volume for one member's device only. */
  ghost predicate ClaimsApart(vols: map<string, Volume>, claims: map<Claim, string>) {
    && (forall a :: a in claims ==> claims[a] in vols)
    && (forall a, b :: a in claims && b in claims && claims[a] == claims[b] ==> a == b)
  }

  ghost predicate Backed(service: string, uuid: string, sv: ServiceVolumes, replicas: seq<ReplicaConfig>,
                         ms: map<Key, ServiceMember>, vols: map<string, Volume>, claims: map<Claim, string>) {
    && Apart(ms) && Known(ms, vols) && AsWanted(uuid, sv, ms, vols)
    && ClaimsFit(service, uuid, sv, replicas, ms, vols, claims)
  }

  // ---------------------------------------------------------------- making a volume

  /** What making one volume does, whether it succeeds or not. */
  ghost predicate Makes(claim: Claim, made: Volume, vols: map<string, Volume>, claims: map<Claim, string>,
                        vols': map<string, Volume>, claims': map<Claim, string>, r: Option<string>) {
    && (forall id :: id in vols ==> id in vols' && vols'[id] == vols[id])
    && (forall id :: id in vols' && id !in vols ==> vols'[id] == made)
    && (forall c :: c != claim || c in claims ==> SameAt(claims', claims, c))
    && (claim in claims' && claim !in claims ==> claims'[claim] in vols' && claims'[claim] !in vols)
    && (r.Some? ==>
          && r.value != ""
          && (|| (r.value in vols' && r.value !in vols && (claim in claims' && claim !in claims ==> claims'[claim] == r.value))
              || (claim in claims && r.value == claims[claim])))
  }

  /** A new volume, or the one that the platform has for the member; then the new one is deleted. */
  method CreateVolume(cloud: Platform, service: string, sv: ServiceVolumes, zone: string, memberName: string, journal: bool)
    returns (r: Option<string>)
    requires cloud.Valid()
    modifies cloud`volumes, cloud`claims
    ensures cloud.Valid()
    ensures Makes((service, memberName, journal), Volume(zone, if journal then sv.journalVolume else sv.primaryVolume),
                  old(cloud.volumes), old(cloud.claims), cloud.volumes, cloud.claims, r)
    ensures r.Some? && cloud.k8s ==> (service, memberName, journal) in cloud.claims
    ensures r.Some? && cloud.k8s && cloud.tells ==> r.value == cloud.claims[(service, memberName, journal)]
    ensures cloud.reliable && r.Some? && r.value in old(cloud.volumes) ==> cloud.volumes == old(cloud.volumes)
    ensures cloud.reliable ==> r.Some?
  {
    var vol := sv.primaryVolume;
    if journal {
      vol := sv.journalVolume;
    }
    var made := cloud.CreateVolume(zone, vol);
    if made.None? {
      return None;
    }
    var claimed := cloud.CreateServiceVolume((service, memberName, journal), made.value);
    if claimed.ClaimError? {
      return None;
    }
    if claimed.VolumeExist? {
      if made.value != claimed.volID {
        cloud.DeleteVolume(made.value);
      }
      return Some(claimed.volID);
    }
    r := made;
  }

  /** The volume may be given to this device of this member: nobody has it, and the platform keeps it for no other. */
  ghost predicate Free(service: string, c: ReplicaConfig, journal: bool, sv: ServiceVolumes, ms: map<Key, ServiceMember>,
                       vols: map<string, Volume>, claims: map<Claim, string>, id: string) {
    && id != "" && id in vols && vols[id] == Volume(c.zone, Wanted(sv, journal))
    && (forall key: Key, other :: !Holds(ms, key, other, id))
    && (forall a :: a in claims && claims[a] == id ==> a == (service, c.memberName, journal))
  }

  /** Different configs have different names. */
  ghost predicate NamesApart(replicas: seq<ReplicaConfig>) {
    forall a, b :: a in replicas && b in replicas && a.memberName == b.memberName ==> a == b
  }

  lemma MakesBacked(service: string, uuid: string, sv: ServiceVolumes, replicas: seq<ReplicaConfig>, c: ReplicaConfig, journal: bool,
                    ms: map<Key, ServiceMember>, vols: map<string, Volume>, claims: map<Claim, string>,
                    vols': map<string, Volume>, claims': map<Claim, string>, r: Option<string>)
    requires Backed(service, uuid, sv, replicas, ms, vols, claims) && NamesApart(replicas)
    requires c in replicas
    requires Makes((service, c.memberName, journal), Volume(c.zone, Wanted(sv, journal)), vols, claims, vols', claims', r)
    ensures Backed(service, uuid, sv, replicas, ms, vols', claims')
    ensures r.Some? && (uuid, c.memberName) !in ms ==> Free(service, c, journal, sv, ms, vols', claims', r.value)
  {
    hide Holds;
    forall d, other | d in replicas ensures ClaimFits(service, uuid, sv, d, other, ms, vols', claims') {
      ClaimStillFits(service, uuid, sv, replicas, c, journal, d, other, ms, vols, claims, vols', claims', r);
    }
    ClaimsStayApart(service, c, journal, Volume(c.zone, Wanted(sv, journal)), vols, claims, vols', claims', r);
    if r.Some? && (uuid, c.memberName) !in ms { MadeIsFree(service, uuid, sv, replicas, c, journal, ms, vols, claims, vols', claims', r); }
    hide Makes, ClaimFits, ClaimsApart, Free;
    KnownStay(uuid, sv, c.zone, journal, ms, vols, vols');
  }

  lemma KnownStay(uuid: string, sv: ServiceVolumes, zone: string, journal: bool, ms: map<Key, ServiceMember>,
                  vols: map<string, Volume>, vols': map<string, Volume>)
    requires Known(ms, vols) && AsWanted(uuid, sv, ms, vols)
    requires forall id :: id in vols ==> id in vols' && vols'[id] == vols[id]
    ensures Known(ms, vols') && AsWanted(uuid, sv, ms, vols')
  {
    hide Holds;
  }

  lemma ClaimStillFits(service: string, uuid: string, sv: ServiceVolumes, replicas: seq<ReplicaConfig>, c: ReplicaConfig, journal: bool,
                       d: ReplicaConfig, other: bool, ms: map<Key, ServiceMember>, vols: map<string, Volume>, claims: map<Claim, string>,
                       vols': map<string, Volume>, claims': map<Claim, string>, r: Option<string>)
    requires Backed(service, uuid, sv, replicas, ms, vols, claims) && NamesApart(replicas) && c in replicas && d in replicas
    requires Makes((service, c.memberName, journal), Volume(c.zone, Wanted(sv, journal)), vols, claims, vols', claims', r)
    ensures ClaimFits(service, uuid, sv, d, other, ms, vols', claims')
  {
    hide Holds;
    var claim, mine := (service, c.memberName, journal), (service, d.memberName, other);
    assert ClaimFits(service, uuid, sv, d, other, ms, vols, claims);
    if mine == claim && claim !in claims {
      assert c == d;
      if claim in claims' {
        assert claims'[claim] !in vols;
        assert forall key: Key, j :: !Holds(ms, key, j, claims'[claim]);
      }
    } else {
      assert SameAt(claims', claims, mine);
    }
  }

  lemma ClaimsStayApart(service: string, c: ReplicaConfig, journal: bool, made: Volume, vols: map<string, Volume>,
                        claims: map<Claim, string>, vols': map<string, Volume>, claims': map<Claim, string>, r: Option<string>)
    requires ClaimsApart(vols, claims) && Makes((service, c.memberName, journal), made, vols, claims, vols', claims', r)
    ensures ClaimsApart(vols', claims')
  {
    var claim := (service, c.memberName, journal);
    forall a | a in claims' && a != claim ensures a in claims && claims'[a] == claims[a] {
      assert SameAt(claims', claims, a);
    }
    assert claim in claims ==> SameAt(claims', claims, claim);
  }

  lemma MadeIsFree(service: string, uuid: string, sv: ServiceVolumes, replicas: seq<ReplicaConfig>, c: ReplicaConfig, journal: bool,
                   ms: map<Key, ServiceMember>, vols: map<string, Volume>, claims: map<Claim, string>,
                   vols': map<string, Volume>, claims': map<Claim, string>, r: Option<string>)
    requires Backed(service, uuid, sv, replicas, ms, vols, claims) && c in replicas && (uuid, c.memberName) !in ms
    requires Makes((service, c.memberName, journal), Volume(c.zone, Wanted(sv, journal)), vols, claims, vols', claims', r) && r.Some?
    requires ClaimsApart(vols', claims')
    ensures Free(service, c, journal, sv, ms, vols', claims', r.value)
  {
    HeldByIt(uuid, c, ms);
    hide Holds;
    var claim, made := (service, c.memberName, journal), Volume(c.zone, Wanted(sv, journal));
    assert ClaimFits(service, uuid, sv, c, journal, ms, vols, claims);
    assert claim in claims ==> SameAt(claims', claims, claim);
    forall a | a in claims' && claims'[a] == r.value ensures a == claim {
      OtherClaims(service, c, journal, made, vols, claims, vols', claims', r, a);
    }
  }

  lemma OtherClaims(service: string, c: ReplicaConfig, journal: bool, made: Volume, vols: map<string, Volume>, claims: map<Claim, string>,
                    vols': map<string, Volume>, claims': map<Claim, string>, r: Option<string>, a: Claim)
    requires ClaimsApart(vols, claims) && ClaimsApart(vols', claims')
    requires Makes((service, c.memberName, journal), made, vols, claims, vols', claims', r) && r.Some?
    requires a in claims' && claims'[a] == r.value
    ensures a == (service, c.memberName, journal)
  {
    var claim := (service, c.memberName, journal);
    assert a != claim ==> SameAt(claims', claims, a);
    assert claim in claims ==> SameAt(claims', claims, claim);
  }

  lemma HeldByIt(uuid: string, c: ReplicaConfig, ms: map<Key, ServiceMember>)
    requires (uuid, c.memberName) !in ms
    ensures forall other, id :: !Holds(ms, (uuid, c.memberName), other, id)
  {
  }

  /** Making the other volume of the member leaves the first one to it, and gives another one. */
  lemma StillFree(service: string, c: ReplicaConfig, sv: ServiceVolumes, ms: map<Key, ServiceMember>,
                  vols: map<string, Volume>, claims: map<Claim, string>, vols': map<string, Volume>, claims': map<Claim, string>,
                  id: string, r: Option<string>)
    requires Free(service, c, false, sv, ms, vols, claims, id)
    requires Makes((service, c.memberName, true), Volume(c.zone, Wanted(sv, true)), vols, claims, vols', claims', r)
    ensures Free(service, c, false, sv, ms, vols', claims', id) && (r.Some? ==> r.value != id)
  {
    hide Holds;
    forall a | a in claims' && claims'[a] == id ensures a == (service, c.memberName, false) {
      assert a != (service, c.memberName, true) || a in claims ==> SameAt(claims', claims, a);
    }
  }

  /** The member that has been made has volumes that were free; it may hold them. */
  lemma StoredBacked(service: string, uuid: string, sv: ServiceVolumes, replicas: seq<ReplicaConfig>, c: ReplicaConfig,
                     ms: map<Key, ServiceMember>, vols: map<string, Volume>, claims: map<Claim, string>, m: ServiceMember)
    requires Backed(service, uuid, sv, replicas, ms, vols, claims) && NamesApart(replicas)
    requires c in replicas && (uuid, c.memberName) !in ms && m.spec.availableZone == c.zone
    requires forall journal :: VolumeID(m.spec.volumes, journal) != "" ==>
               Free(service, c, journal, sv, ms, vols, claims, VolumeID(m.spec.volumes, journal))
    requires m.spec.volumes.primaryVolumeID != "" ==> m.spec.volumes.primaryVolumeID != m.spec.volumes.journalVolumeID
    ensures Backed(service, uuid, sv, replicas, ms[(uuid, c.memberName) := m], vols, claims)
  {
    var me: Key := (uuid, c.memberName);
    var ms' := ms[me := m];
    forall key: Key, journal, id | Holds(ms', key, journal, id)
      ensures if key == me then id != "" && id == VolumeID(m.spec.volumes, journal) && Free(service, c, journal, sv, ms, vols, claims, id)
              else Holds(ms, key, journal, id)
    {
    }
    hide Holds, Free;
    forall key: Key, journal, key': Key, journal', id | Holds(ms', key, journal, id) && Holds(ms', key', journal', id)
      ensures key == key' && journal == journal'
    {
      NotHeldYet(service, c, sv, ms, vols, claims, me, m, key, journal, key', journal', id);
    }
    StoredKnown(service, uuid, c, sv, ms, vols, claims, m);
    forall d, other | d in replicas ensures ClaimFits(service, uuid, sv, d, other, ms', vols, claims) {
      assert ClaimFits(service, uuid, sv, d, other, ms, vols, claims);
      StoredClaim(service, uuid, c, sv, ms, vols, claims, m, d, other);
    }
  }

  lemma NotHeldYet(service: string, c: ReplicaConfig, sv: ServiceVolumes, ms: map<Key, ServiceMember>,
                   vols: map<string, Volume>, claims: map<Claim, string>, me: Key, m: ServiceMember,
                   key: Key, journal: bool, key': Key, journal': bool, id: string)
    requires Apart(ms) && (m.spec.volumes.primaryVolumeID != "" ==> m.spec.volumes.primaryVolumeID != m.spec.volumes.journalVolumeID)
    requires forall j :: VolumeID(m.spec.volumes, j) != "" ==> Free(service, c, j, sv, ms, vols, claims, VolumeID(m.spec.volumes, j))
    requires Holds(ms[me := m], key, journal, id) && Holds(ms[me := m], key', journal', id)
    ensures key == key' && journal == journal'
  {
    assert key != me ==> Holds(ms, key, journal, id);
    assert key' != me ==> Holds(ms, key', journal', id);
    assert key == me ==> Free(service, c, journal, sv, ms, vols, claims, id);
    assert key' == me ==> Free(service, c, journal', sv, ms, vols, claims, id);
  }

  lemma StoredKnown(service: string, uuid: string, c: ReplicaConfig, sv: ServiceVolumes, ms: map<Key, ServiceMember>,
                    vols: map<string, Volume>, claims: map<Claim, string>, m: ServiceMember)
    requires Known(ms, vols) && AsWanted(uuid, sv, ms, vols) && m.spec.availableZone == c.zone
    requires forall j :: VolumeID(m.spec.volumes, j) != "" ==> Free(service, c, j, sv, ms, vols, claims, VolumeID(m.spec.volumes, j))
    ensures var ms' := ms[(uuid, c.memberName) := m]; Known(ms', vols) && AsWanted(uuid, sv, ms', vols)
  {
    var me: Key := (uuid, c.memberName);
    var ms' := ms[me := m];
    forall key: Key, journal, id | Holds(ms', key, journal, id)
      ensures id in vols
      ensures key.0 == uuid ==> vols[id] == Volume(ms'[key].spec.availableZone, Wanted(sv, journal))
    {
      if key == me {
        assert Free(service, c, journal, sv, ms, vols, claims, id);
      } else {
        assert Holds(ms, key, journal, id);
        if key.0 == uuid { assert Holds(ms, (uuid, key.1), journal, id); }
      }
    }
  }

  lemma StoredClaim(service: string, uuid: string, c: ReplicaConfig, sv: ServiceVolumes, ms: map<Key, ServiceMember>,
                    vols: map<string, Volume>, claims: map<Claim, string>, m: ServiceMember, d: ReplicaConfig, other: bool)
    requires ClaimFits(service, uuid, sv, d, other, ms, vols, claims)
    requires forall j :: VolumeID(m.spec.volumes, j) != "" ==> Free(service, c, j, sv, ms, vols, claims, VolumeID(m.spec.volumes, j))
    ensures ClaimFits(service, uuid, sv, d, other, ms[(uuid, c.memberName) := m], vols, claims)
  {
    var me: Key := (uuid, c.memberName);
    var claim := (service, d.memberName, other);
    if claim in claims {
      var ms', id := ms[me := m], claims[claim];
      forall key: Key, j | Holds(ms', key, j, id) ensures key == (uuid, d.memberName) && j == other {
        if key == me {
          assert Free(service, c, j, sv, ms, vols, claims, id);
        } else {
          assert Holds(ms, key, j, id);
        }
      }
    }
  }

  // ---------------------------------------------------------------- the volumes of one new member

  /** The volumes made for the member are its alone; none has been made where the ID is empty. */
  ghost predicate Ready(service: string, uuid: string, sv: ServiceVolumes, replicas: seq<ReplicaConfig>, c: ReplicaConfig,
                        ms: map<Key, ServiceMember>, vols: map<string, Volume>, claims: map<Claim, string>, v: MemberVolumes) {
    && Backed(service, uuid, sv, replicas, ms, vols, claims)
    && ((uuid, c.memberName) !in ms ==>
          && (forall journal :: VolumeID(v, journal) != "" ==> Free(service, c, journal, sv, ms, vols, claims, VolumeID(v, journal)))
          && (v.primaryVolumeID != "" ==> v.primaryVolumeID != v.journalVolumeID))
  }

  lemma NothingReady(service: string, uuid: string, sv: ServiceVolumes, replicas: seq<ReplicaConfig>, c: ReplicaConfig,
                     ms: map<Key, ServiceMember>, vols: map<string, Volume>, claims: map<Claim, string>)
    requires Backed(service, uuid, sv, replicas, ms, vols, claims)
    ensures Ready(service, uuid, sv, replicas, c, ms, vols, claims, MemberVolumes("", "", "", ""))
  {
    hide Backed;
  }

  lemma PrimaryReady(service: string, uuid: string, sv: ServiceVolumes, replicas: seq<ReplicaConfig>, c: ReplicaConfig,
                     ms: map<Key, ServiceMember>, vols: map<string, Volume>, claims: map<Claim, string>,
                     vols': map<string, Volume>, claims': map<Claim, string>, r: Option<string>, v: MemberVolumes)
    requires NamesApart(replicas) && c in replicas && Backed(service, uuid, sv, replicas, ms, vols, claims)
    requires Makes((service, c.memberName, false), Volume(c.zone, Wanted(sv, false)), vols, claims, vols', claims', r)
    requires v.primaryVolumeID == (if r.Some? then r.value else "") && v.journalVolumeID == ""
    ensures Ready(service, uuid, sv, replicas, c, ms, vols', claims', v)
  {
    assert r.Some? ==> r.value != "";
    hide Backed, NamesApart, Makes, Free;
    MakesBacked(service, uuid, sv, replicas, c, false, ms, vols, claims, vols', claims', r);
  }

  lemma JournalReady(service: string, uuid: string, sv: ServiceVolumes, replicas: seq<ReplicaConfig>, c: ReplicaConfig,
                     ms: map<Key, ServiceMember>, vols: map<string, Volume>, claims: map<Claim, string>,
                     vols': map<string, Volume>, claims': map<Claim, string>, r: Option<string>, v: MemberVolumes, v': MemberVolumes)
    requires NamesApart(replicas) && c in replicas && Ready(service, uuid, sv, replicas, c, ms, vols, claims, v) && v.journalVolumeID == ""
    requires Makes((service, c.memberName, true), Volume(c.zone, Wanted(sv, true)), vols, claims, vols', claims', r)
    requires v'.primaryVolumeID == v.primaryVolumeID && v'.journalVolumeID == (if r.Some? then r.value else "")
    ensures Ready(service, uuid, sv, replicas, c, ms, vols', claims', v')
  {
    var id := VolumeID(v, false);
    assert (uuid, c.memberName) !in ms && id != "" ==> Free(service, c, false, sv, ms, vols, claims, id);
    assert r.Some? ==> r.value != "";
    hide Backed, NamesApart, Free, Makes;
    MakesBacked(service, uuid, sv, replicas, c, true, ms, vols, claims, vols', claims', r);
    if (uuid, c.memberName) !in ms && id != "" { StillFree(service, c, sv, ms, vols, claims, vols', claims', id, r); }
    assert VolumeID(v', false) == id;
  }

  lemma ReadyStored(service: string, uuid: string, sv: ServiceVolumes, replicas: seq<ReplicaConfig>, c: ReplicaConfig,
                    ms: map<Key, ServiceMember>, vols: map<string, Volume>, claims: map<Claim, string>, m: ServiceMember)
    requires Ready(service, uuid, sv, replicas, c, ms, vols, claims, m.spec.volumes) && NamesApart(replicas) && c in replicas
    requires (uuid, c.memberName) !in ms && m.spec.availableZone == c.zone
    ensures Backed(service, uuid, sv, replicas, ms[(uuid, c.memberName) := m], vols, claims)
    ensures VolumesMade(c.zone, sv, m.spec.volumes, vols)
  {
    assert forall journal :: VolumeID(m.spec.volumes, journal) != "" ==>
             Free(service, c, journal, sv, ms, vols, claims, VolumeID(m.spec.volumes, journal));
    StoredBacked(service, uuid, sv, replicas, c, ms, vols, claims, m);
    hide Backed;
    assert VolumeID(m.spec.volumes, false) == m.spec.volumes.primaryVolumeID && VolumeID(m.spec.volumes, true) == m.spec.volumes.journalVolumeID;
  }

  lemma ReadyIsBacked(service: string, uuid: string, sv: ServiceVolumes, replicas: seq<ReplicaConfig>, c: ReplicaConfig,
                      ms: map<Key, ServiceMember>, vols: map<string, Volume>, claims: map<Claim, string>, v: MemberVolumes)
    requires Ready(service, uuid, sv, replicas, c, ms, vols, claims, v)
    ensures Backed(service, uuid, sv, replicas, ms, vols, claims)
  {
    hide Backed;
  }

  /** The cloud has the member's volumes in its zone, as its service asked for, and they are two. */
  predicate VolumesMade(zone: string, sv: ServiceVolumes, v: MemberVolumes, vols: map<string, Volume>) {
    && (v.primaryVolumeID != "" ==> v.primaryVolumeID in vols && vols[v.primaryVolumeID] == Volume(zone, sv.primaryVolume))
    && (v.journalVolumeID != "" ==> v.journalVolumeID in vols && vols[v.journalVolumeID] == Volume(zone, sv.journalVolume))
    && (v.primaryVolumeID != "" ==> v.primaryVolumeID != v.journalVolumeID)
  }

  /** Where the volumes of the new member come from. */
  ghost predicate FromCloud(service: string, name: string, vols: map<string, Volume>, claims: map<Claim, string>,
                            vols': map<string, Volume>, v: MemberVolumes) {
    forall journal :: VolumeID(v, journal) != "" ==>
      var id := VolumeID(v, journal); (id in vols' && id !in vols) || ClaimedAs(claims, (service, name, journal), id)
  }

  lemma NoneFromCloud(service: string, name: string, vols: map<string, Volume>, claims: map<Claim, string>)
    ensures FromCloud(service, name, vols, claims, vols, MemberVolumes("", "", "", ""))
  {
    var v := MemberVolumes("", "", "", "");
    forall journal ensures VolumeID(v, journal) == "" {}
    hide VolumeID;
  }

  /** One more volume of the member has been made. */
  lemma MoreFromCloud(service: string, uuid: string, name: string, journal: bool, made: Volume, ms: map<Key, ServiceMember>,
                      vols: map<string, Volume>, claims: map<Claim, string>, vols1: map<string, Volume>, claims1: map<Claim, string>,
                      vols2: map<string, Volume>, claims2: map<Claim, string>, r: Option<string>, v: MemberVolumes, v': MemberVolumes)
    requires VolumesGrow(service, uuid, ms, vols, claims, ms, vols1, claims1) && FromCloud(service, name, vols, claims, vols1, v)
    requires Makes((service, name, journal), made, vols1, claims1, vols2, claims2, r) && VolumeID(v, journal) == ""
    requires VolumeID(v', !journal) == VolumeID(v, !journal) && VolumeID(v', journal) == if r.Some? then r.value else ""
    ensures VolumesGrow(service, uuid, ms, vols, claims, ms, vols2, claims2) && FromCloud(service, name, vols, claims, vols2, v')
  {
    var a: Claim := (service, name, journal);
    MadeGrows(service, uuid, ms, a, made, vols1, claims1, vols2, claims2, r);
    VolumesGrowTwice(service, uuid, ms, vols, claims, ms, vols1, claims1, ms, vols2, claims2);
    hide VolumesGrow, VolumeID, Holds;
    ClaimsOfGrow(service, uuid, ms, vols, claims, vols1, claims1, a);
    forall j | VolumeID(v', j) != ""
      ensures var id := VolumeID(v', j); (id in vols2 && id !in vols) || ClaimedAs(claims, (service, name, j), id)
    {
      var id := VolumeID(v', j);
      if j == !journal {
        assert VolumeID(v, j) == id && id in vols1 ==> id in vols2;
      } else {
        assert j == journal && r.Some? && r.value == id;
        assert a in claims1 && id == claims1[a] ==> (a in claims && claims[a] == id) || (id in vols1 && id !in vols);
        assert id !in vols1 ==> id !in vols;
      }
    }
  }

  lemma ClaimsOfGrow(service: string, uuid: string, ms: map<Key, ServiceMember>, vols: map<string, Volume>, claims: map<Claim, string>,
                     vols': map<string, Volume>, claims': map<Claim, string>, a: Claim)
    requires VolumesGrow(service, uuid, ms, vols, claims, ms, vols', claims')
    ensures a in claims' ==> a in claims || (claims'[a] !in vols && claims'[a] in vols')
    ensures a in claims ==> a in claims' && claims'[a] == claims[a]
    ensures forall id :: id in vols ==> id in vols'
  {
  }

  /** The volumes made so far for the next member. */
  ghost predicate Making(service: string, uuid: string, sv: ServiceVolumes, replicas: seq<ReplicaConfig>, c: ReplicaConfig,
                         ms: map<Key, ServiceMember>, vols: map<string, Volume>, claims: map<Claim, string>,
                         vols': map<string, Volume>, claims': map<Claim, string>, v: MemberVolumes) {
    && VolumesGrow(service, uuid, ms, vols, claims, ms, vols', claims') && FromCloud(service, c.memberName, vols, claims, vols', v)
    && (Backed(service, uuid, sv, replicas, ms, vols, claims) ==> Ready(service, uuid, sv, replicas, c, ms, vols', claims', v))
  }

  lemma MakingStarts(service: string, uuid: string, sv: ServiceVolumes, replicas: seq<ReplicaConfig>, c: ReplicaConfig,
                     ms: map<Key, ServiceMember>, vols: map<string, Volume>, claims: map<Claim, string>)
    ensures Making(service, uuid, sv, replicas, c, ms, vols, claims, vols, claims, MemberVolumes("", "", "", ""))
  {
    hide VolumesGrow, FromCloud, Backed, Ready;
    NoVolumeMade(service, uuid, ms, vols, claims);
    NoneFromCloud(service, c.memberName, vols, claims);
    if Backed(service, uuid, sv, replicas, ms, vols, claims) { NothingReady(service, uuid, sv, replicas, c, ms, vols, claims); }
  }

  lemma MakingPrimary(service: string, uuid: string, sv: ServiceVolumes, replicas: seq<ReplicaConfig>, c: ReplicaConfig,
                      ms: map<Key, ServiceMember>, vols: map<string, Volume>, claims: map<Claim, string>,
                      vols': map<string, Volume>, claims': map<Claim, string>, r: Option<string>, v: MemberVolumes)
    requires NamesApart(replicas) && c in replicas
    requires Makes((service, c.memberName, false), Volume(c.zone, sv.primaryVolume), vols, claims, vols', claims', r)
    requires v.primaryVolumeID == (if r.Some? then r.value else "") && v.journalVolumeID == ""
    ensures Making(service, uuid, sv, replicas, c, ms, vols, claims, vols', claims', v)
  {
    var none := MemberVolumes("", "", "", "");
    assert VolumeID(none, false) == VolumeID(none, true) == VolumeID(v, true) == "" && VolumeID(v, false) == v.primaryVolumeID;
    assert Wanted(sv, false) == sv.primaryVolume;
    hide VolumesGrow, FromCloud, Backed, Ready, Makes, NamesApart, Wanted, VolumeID;
    NoVolumeMade(service, uuid, ms, vols, claims);
    NoneFromCloud(service, c.memberName, vols, claims);
    MoreFromCloud(service, uuid, c.memberName, false, Volume(c.zone, sv.primaryVolume), ms, vols, claims, vols, claims, vols', claims', r, none, v);
    if Backed(service, uuid, sv, replicas, ms, vols, claims) {
      PrimaryReady(service, uuid, sv, replicas, c, ms, vols, claims, vols', claims', r, v);
    }
  }

  lemma MakingJournal(service: string, uuid: string, sv: ServiceVolumes, replicas: seq<ReplicaConfig>, c: ReplicaConfig,
                      ms: map<Key, ServiceMember>, vols: map<string, Volume>, claims: map<Claim, string>,
                      vols1: map<string, Volume>, claims1: map<Claim, string>,
                      vols2: map<string, Volume>, claims2: map<Claim, string>, r: Option<string>, v: MemberVolumes, v': MemberVolumes)
    requires NamesApart(replicas) && c in replicas
    requires Making(service, uuid, sv, replicas, c, ms, vols, claims, vols1, claims1, v) && v.journalVolumeID == ""
    requires Makes((service, c.memberName, true), Volume(c.zone, sv.journalVolume), vols1, claims1, vols2, claims2, r)
    requires v'.primaryVolumeID == v.primaryVolumeID && v'.journalVolumeID == (if r.Some? then r.value else "")
    ensures Making(service, uuid, sv, replicas, c, ms, vols, claims, vols2, claims2, v')
  {
    assert VolumeID(v, true) == "" && VolumeID(v', true) == v'.journalVolumeID && VolumeID(v', false) == VolumeID(v, false);
    assert Wanted(sv, true) == sv.journalVolume;
    hide VolumesGrow, FromCloud, Backed, Ready, Makes, NamesApart, Wanted, VolumeID;
    MoreFromCloud(service, uuid, c.memberName, true, Volume(c.zone, sv.journalVolume), ms, vols, claims, vols1, claims1, vols2, claims2, r, v, v');
    if Backed(service, uuid, sv, replicas, ms, vols, claims) {
      JournalReady(service, uuid, sv, replicas, c, ms, vols1, claims1, vols2, claims2, r, v, v');
    }
  }

  lemma MakingDone(service: string, uuid: string, sv: ServiceVolumes, replicas: seq<ReplicaConfig>, c: ReplicaConfig,
                   ms: map<Key, ServiceMember>, vols: map<string, Volume>, claims: map<Claim, string>,
                   vols': map<string, Volume>, claims': map<Claim, string>, v: MemberVolumes, m: ServiceMember)
    requires Making(service, uuid, sv, replicas, c, ms, vols, claims, vols', claims', v) && NamesApart(replicas) && c in replicas
    ensures VolumesGrow(service, uuid, ms, vols, claims, ms, vols', claims')
    ensures Backed(service, uuid, sv, replicas, ms, vols, claims) ==> Backed(service, uuid, sv, replicas, ms, vols', claims')
    ensures (uuid, c.memberName) !in ms && m.spec.availableZone == c.zone && m.spec.volumes == v ==>
              && VolumesGrow(service, uuid, ms, vols, claims, ms[(uuid, c.memberName) := m], vols', claims')
              && (Backed(service, uuid, sv, replicas, ms, vols, claims) ==>
                    && Backed(service, uuid, sv, replicas, ms[(uuid, c.memberName) := m], vols', claims')
                    && VolumesMade(c.zone, sv, v, vols'))
  {
    hide VolumesGrow, FromCloud, Backed, Ready, NamesApart, VolumesMade;
    var backed := Backed(service, uuid, sv, replicas, ms, vols, claims);
    if backed { ReadyIsBacked(service, uuid, sv, replicas, c, ms, vols', claims', v); }
    if (uuid, c.memberName) !in ms && m.spec.availableZone == c.zone && m.spec.volumes == v {
      StoredGrows(service, uuid, ms, vols, claims, vols', claims', c.memberName, m);
      if backed { ReadyStored(service, uuid, sv, replicas, c, ms, vols', claims', m); }
    }
  }

  // ---------------------------------------------------------------- over time

  /** What making members of one service does to the volumes of all. */
  ghost predicate VolumesGrow(service: string, uuid: string, ms: map<Key, ServiceMember>, vols: map<string, Volume>,
                              claims: map<Claim, string>, ms': map<Key, ServiceMember>, vols': map<string, Volume>,
                              claims': map<Claim, string>) {
    && (forall id :: id in vols ==> id in vols' && vols'[id] == vols[id])
    && (forall a :: a in claims ==> a in claims' && claims'[a] == claims[a])
    && (forall a :: a in claims' && a !in claims ==> a.0 == service && claims'[a] in vols' && claims'[a] !in vols)
    && (forall key :: key in ms ==> key in ms' && ms'[key] == ms[key])
    && (forall key: Key, journal, id :: Holds(ms', key, journal, id) && !Holds(ms, key, journal, id) ==>
          && key.0 == uuid
          && ((id in vols' && id !in vols) || ClaimedAs(claims, (service, key.1, journal), id)))
  }

  predicate ClaimedAs(claims: map<Claim, string>, a: Claim, id: string) { a in claims && claims[a] == id }

  lemma NoVolumeMade(service: string, uuid: string, ms: map<Key, ServiceMember>, vols: map<string, Volume>, claims: map<Claim, string>)
    ensures VolumesGrow(service, uuid, ms, vols, claims, ms, vols, claims)
  {
  }

  lemma VolumesGrowTwice(service: string, uuid: string, ms: map<Key, ServiceMember>, vols: map<string, Volume>, claims: map<Claim, string>,
                         ms1: map<Key, ServiceMember>, vols1: map<string, Volume>, claims1: map<Claim, string>,
                         ms2: map<Key, ServiceMember>, vols2: map<string, Volume>, claims2: map<Claim, string>)
    requires VolumesGrow(service, uuid, ms, vols, claims, ms1, vols1, claims1)
    requires VolumesGrow(service, uuid, ms1, vols1, claims1, ms2, vols2, claims2)
    ensures VolumesGrow(service, uuid, ms, vols, claims, ms2, vols2, claims2)
  {
    forall key: Key, journal, id | Holds(ms2, key, journal, id) && !Holds(ms, key, journal, id)
      ensures key.0 == uuid && ((id in vols2 && id !in vols) || ClaimedAs(claims, (service, key.1, journal), id))
    {
      hide Holds;
      var a: Claim := (service, key.1, journal);
      assert a in claims1 && a !in claims ==> claims1[a] in vols1 && claims1[a] !in vols;
      assert !Holds(ms1, key, journal, id) ==> (id in vols2 && id !in vols1) || ClaimedAs(claims1, a, id);
    }
  }

  lemma MadeGrows(service: string, uuid: string, ms: map<Key, ServiceMember>, claim: Claim, made: Volume, vols: map<string, Volume>,
                  claims: map<Claim, string>, vols': map<string, Volume>, claims': map<Claim, string>, r: Option<string>)
    requires Makes(claim, made, vols, claims, vols', claims', r) && claim.0 == service
    ensures VolumesGrow(service, uuid, ms, vols, claims, ms, vols', claims')
  {
    hide Holds;
    forall a | a in claims ensures a in claims' && claims'[a] == claims[a] { assert SameAt(claims', claims, a); }
    forall a | a in claims' && a !in claims ensures a == claim { assert a != claim ==> SameAt(claims', claims, a); }
  }

  lemma StoredGrows(service: string, uuid: string, ms: map<Key, ServiceMember>, vols: map<string, Volume>, claims: map<Claim, string>,
                    vols': map<string, Volume>, claims': map<Claim, string>, name: string, m: ServiceMember)
    requires VolumesGrow(service, uuid, ms, vols, claims, ms, vols', claims') && (uuid, name) !in ms
    requires FromCloud(service, name, vols, claims, vols', m.spec.volumes)
    ensures VolumesGrow(service, uuid, ms, vols, claims, ms[(uuid, name) := m], vols', claims')
  {
  }

  /** Another service's volumes are as they were, and still no volume is held twice. */
  lemma OtherStaysBacked(service: string, uuid: string, sv: ServiceVolumes, replicas: seq<ReplicaConfig>,
                         other: string, otherUUID: string, otherSV: ServiceVolumes, otherReplicas: seq<ReplicaConfig>,
                         ms: map<Key, ServiceMember>, vols: map<string, Volume>, claims: map<Claim, string>,
                         ms': map<Key, ServiceMember>, vols': map<string, Volume>, claims': map<Claim, string>)
    requires Backed(other, otherUUID, otherSV, otherReplicas, ms, vols, claims) && other != service && otherUUID != uuid
    requires VolumesGrow(service, uuid, ms, vols, claims, ms', vols', claims')
    requires Backed(service, uuid, sv, replicas, ms', vols', claims')
    ensures Backed(other, otherUUID, otherSV, otherReplicas, ms', vols', claims')
  {
    forall n, journal, id | Holds(ms', (otherUUID, n), journal, id)
      ensures id in vols' && vols'[id] == Volume(ms'[(otherUUID, n)].spec.availableZone, Wanted(otherSV, journal))
    {
      assert Holds(ms, (otherUUID, n), journal, id);
    }
    hide Holds;
    forall c, journal | c in otherReplicas
      ensures ClaimFits(other, otherUUID, otherSV, c, journal, ms', vols', claims')
    {
      assert ClaimFits(other, otherUUID, otherSV, c, journal, ms, vols, claims);
      OtherClaimFits(service, uuid, other, otherUUID, otherSV, c, journal, ms, vols, claims, ms', vols', claims');
    }
  }

  lemma OtherClaimFits(service: string, uuid: string, other: string, otherUUID: string, otherSV: ServiceVolumes, c: ReplicaConfig,
                       journal: bool, ms: map<Key, ServiceMember>, vols: map<string, Volume>, claims: map<Claim, string>,
                       ms': map<Key, ServiceMember>, vols': map<string, Volume>, claims': map<Claim, string>)
    requires ClaimFits(other, otherUUID, otherSV, c, journal, ms, vols, claims) && ClaimsApart(vols, claims) && other != service
    requires VolumesGrow(service, uuid, ms, vols, claims, ms', vols', claims')
    ensures ClaimFits(other, otherUUID, otherSV, c, journal, ms', vols', claims')
  {
    hide Holds;
    var mine: Claim := (other, c.memberName, journal);
    if mine in claims' {
      var id := claims'[mine];
      forall key: Key, j | Holds(ms', key, j, id) ensures Holds(ms, key, j, id) {
        assert !Holds(ms, key, j, id) ==> ClaimedAs(claims, (service, key.1, j), id);
      }
    }
  }

  /** Members that go, and claims that go, leave the rest as it was. */
  lemma FewerStayBacked(service: string, uuid: string, sv: ServiceVolumes, replicas: seq<ReplicaConfig>,
                        ms: map<Key, ServiceMember>, vols: map<string, Volume>, claims: map<Claim, string>,
                        ms': map<Key, ServiceMember>, claims': map<Claim, string>)
    requires Backed(service, uuid, sv, replicas, ms, vols, claims)
    requires forall key :: key in ms' ==> key in ms && ms'[key].spec.volumes == ms[key].spec.volumes
    requires forall key :: key in ms' ==> ms'[key].spec.availableZone == ms[key].spec.availableZone
    requires forall a :: a in claims' ==> a in claims && claims'[a] == claims[a]
    ensures Backed(service, uuid, sv, replicas, ms', vols, claims')
  {
    assert forall key: Key, journal, id :: Holds(ms', key, journal, id) ==> Holds(ms, key, journal, id);
    hide Holds;
    forall c, journal | c in replicas ensures ClaimFits(service, uuid, sv, c, journal, ms', vols, claims') {
      assert ClaimFits(service, uuid, sv, c, journal, ms, vols, claims);
    }
  }

  /** A service that has no member, on a platform that keeps nothing for its names. */
  lemma NewIsBacked(service: string, uuid: string, sv: ServiceVolumes, replicas: seq<ReplicaConfig>,
                    ms: map<Key, ServiceMember>, vols: map<string, Volume>, claims: map<Claim, string>)
    requires Apart(ms) && Known(ms, vols) && ClaimsApart(vols, claims) && NoMembers(uuid, ms)
    requires forall a :: a in claims ==> a.0 != service
    ensures Backed(service, uuid, sv, replicas, ms, vols, claims)
  {
  }
}
