/**
 What the cloud and the container platform keep for services (pkg/server/server.go,
 pkg/containersvc/containersvc.go): volumes and where they are attached, the number of containers and their
 resources, and on Kubernetes the volume that each member was first given. Their calls may fail, with
 effect or without; a `reliable` cloud does not fail.
 */
module Cloud {
  import opened Text
  import opened Records

  datatype Volume = Volume(zone: string, spec: ServiceVolume)

  /** Service, member, and whether it is the journal volume. */
  type Claim = (string, string, bool)

  /** The resources that a request sets; a field that is not given stays. */
  datatype ResourceUpdate = ResourceUpdate(
    maxCPUUnits: Option<int>, reserveCPUUnits: Option<int>, maxMemMB: Option<int>, reserveMemMB: Option<int>)

  datatype ClaimResult = Claimed | VolumeExist(volID: string) | ClaimError

  /** An ID longer than all there are. */
  lemma {:induction false} LongerID(ids: set<string>) returns (id: string)
    ensures id != "" && forall x :: x in ids ==> |x| < |id|
  {
    if ids == {} {
      id := "v";
    } else {
      var x :| x in ids;
      var longer := LongerID(ids - {x});
      id := longer + x;
    }
  }

  class Platform {
    const reliable: bool
    const k8s: bool
    const tells: bool
    var volumes: map<string, Volume>
    var claims: map<Claim, string>
    var attached: set<string>
    var desired: map<string, int>
    var updates: map<string, ResourceUpdate>

    /** A volume that a member was given has an ID. */
    ghost predicate Valid()
      reads this
    {
      forall c :: c in claims ==> claims[c] != ""
    }

    constructor (reliable: bool, k8s: bool, tells: bool)
      ensures this.reliable == reliable && this.k8s == k8s && this.tells == tells
      ensures Valid() && volumes == map[] && claims == map[] && attached == {} && desired == map[] && updates == map[]
    {
      this.reliable, this.k8s, this.tells := reliable, k8s, tells;
      volumes, claims, attached, desired, updates := map[], map[], {}, map[], map[];
    }

    /** A call fails only if the platform is not reliable. */
    method Fails() returns (b: bool)
      ensures reliable ==> !b
    {
      b := *;
      if reliable {
        b := false;
      }
    }

    /** A new volume in the zone; after an error there may be one, too. */
    method CreateVolume(zone: string, v: ServiceVolume) returns (r: Option<string>)
      requires Valid()
      modifies this`volumes
      ensures Valid()
      ensures forall id :: id in old(volumes) ==> id in volumes && volumes[id] == old(volumes)[id]
      ensures forall id :: id in volumes && id !in old(volumes) ==> id != "" && volumes[id] == Volume(zone, v)
      ensures r.Some? ==> r.value !in old(volumes) && r.value != "" && volumes == old(volumes)[r.value := Volume(zone, v)]
      ensures reliable ==> r.Some?
    {
      var before := Fails();
      if before {
        return None;
      }
      ghost var longer := LongerID(volumes.Keys);
      assert longer !in volumes;
      var id: string :| id != "" && id !in volumes;
      volumes := volumes[id := Volume(zone, v)];
      var after := Fails();
      r := if after then None else Some(id);
    }

    /**
     Kubernetes takes the volume for the member, or has one for it and `tells` which; K8sSvc.CreateServiceVolume
     does not tell: it loses ErrVolumeExist. The other platforms keep nothing.
     */
    method CreateServiceVolume(claim: Claim, volID: string) returns (r: ClaimResult)
      requires Valid() && volID != ""
      modifies this`claims
      ensures Valid()
      ensures claims == old(claims) || (claim !in old(claims) && claims == old(claims)[claim := volID])
      ensures r.VolumeExist? ==> claim in old(claims) && r.volID == old(claims)[claim]
      ensures r.Claimed? && k8s ==> claim in claims && (claim !in old(claims) || !tells)
      ensures reliable ==> !r.ClaimError?
    {
      var before := Fails();
      if before {
        return ClaimError;
      }
      if claim in claims {
        var told := *;
        return if told || tells then VolumeExist(claims[claim]) else Claimed;
      }
      if k8s {
        claims := claims[claim := volID];
      }
      var after := Fails();
      r := if after then ClaimError else Claimed;
    }

    /** The error is ignored. */
    method DeleteVolume(volID: string)
      requires Valid()
      modifies this`volumes
      ensures Valid()
      ensures volumes == old(volumes) || volumes == old(volumes) - {volID}
      ensures reliable ==> volID !in volumes
    {
      var failed := Fails();
      if !failed {
        volumes := volumes - {volID};
      }
    }

    /** The volume is there, or the wait ends with an error. */
    method WaitVolumeCreated(volID: string) returns (ok: bool)
      ensures ok ==> volID in volumes
      ensures reliable && volID in volumes ==> ok
    {
      var failed := Fails();
      ok := !failed && volID in volumes;
    }

    /** Whether the volume is attached; a volume that is not there is not. */
    method IsAttached(volID: string) returns (r: Option<bool>)
      ensures r.Some? ==> (r.value <==> volID in attached)
      ensures reliable ==> r.Some?
    {
      var failed := Fails();
      r := if failed then None else Some(volID in attached);
    }

    method DetachVolume(volID: string) returns (ok: bool)
      requires Valid()
      modifies this`attached
      ensures Valid()
      ensures attached == old(attached) || attached == old(attached) - {volID}
      ensures ok ==> volID !in attached
      ensures reliable ==> ok
    {
      var before := Fails();
      if before {
        return false;
      }
      attached := attached - {volID};
      var after := Fails();
      ok := !after;
    }

    /** The error is ignored. */
    method DeleteServiceVolume(claim: Claim)
      requires Valid()
      modifies this`claims
      ensures Valid()
      ensures claims == old(claims) || claims == old(claims) - {claim}
      ensures reliable ==> claim !in claims
    {
      var failed := Fails();
      if !failed {
        claims := claims - {claim};
      }
    }

    method ScaleService(service: string, replicas: int) returns (ok: bool)
      requires Valid()
      modifies this`desired
      ensures Valid()
      ensures desired == old(desired) || desired == old(desired)[service := replicas]
      ensures ok ==> desired == old(desired)[service := replicas]
      ensures reliable ==> ok
    {
      var before := Fails();
      if before {
        return false;
      }
      desired := desired[service := replicas];
      var after := Fails();
      ok := !after;
    }

    method UpdateService(service: string, update: ResourceUpdate) returns (ok: bool)
      requires Valid()
      modifies this`updates
      ensures Valid()
      ensures updates == old(updates) || updates == old(updates)[service := update]
      ensures ok ==> updates == old(updates)[service := update]
      ensures reliable ==> ok
    {
      var before := Fails();
      if before {
        return false;
      }
      updates := updates[service := update];
      var after := Fails();
      ok := !after;
    }
  }
}
