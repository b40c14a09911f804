/**
 Deletions next to the creations of other services: deleteDevices and DeleteServiceStaticIP
 (pkg/managesvc/service.go) delete by name and do not look at the owner. What one attempt does is
 Deletion's; here other services may change the database between the attempts.
 */
module Interference {
  import opened Text
  import opened NextIP
  import opened Records
  import opened Store
  import D = Deletion
  import Devices
  import V = ServiceDevices

  /** What goes by the names of the service's devices and held addresses is recorded for the service. */
  ghost predicate OwnRecords(t: Tables, service: string, u: string) {
    && (forall d :: D.OwnDevice(t, u, d) && d in t.devices ==> t.devices[d] == service)
    && (forall ip :: D.OwnIP(t, u, ip) && ip in t.ips ==> t.ips[ip].serviceUUID == u)
  }

  /** The devices and addresses of other services are still there. */
  ghost predicate OthersSpared(t0: Tables, service: string, u: string, t: Tables) {
    && (forall d :: d in t0.devices && t0.devices[d] != service ==> SameAt(t.devices, t0.devices, d))
    && (forall ip :: ip in t0.ips && t0.ips[ip].serviceUUID != u ==> SameAt(t.ips, t0.ips, ip))
  }

  // ---------------------------------------------------------------- one attempt

  /**
   An attempt that starts with its own names recorded for the service takes nothing of others, wherever it
   stops; one that succeeds takes nothing of others only then.
   */
  lemma AttemptSpares(t0: Tables, service: string, u: string, t: Tables)
    requires u in t0.attrs && D.Underway(t0, service, u, t)
    ensures OwnRecords(t0, service, u) ==> OthersSpared(t0, service, u, t)
    ensures service !in t.services ==> (OthersSpared(t0, service, u, t) <==> OwnRecords(t0, service, u))
  {
    D.OthersUntouched(t0, service, u, t);
    if service !in t.services { D.SuccessLeavesNothing(t0, service, u, t); }
    hide D.Underway, D.Progress, D.OwnDevice, D.OwnIP, D.OwnConfig, NoMembers;
  }

  lemma AttrStays(t0: Tables, service: string, u: string, t: Tables)
    requires D.Progress(t0, service, u, t) && u in t.attrs
    ensures u in t0.attrs && t.attrs[u].spec == t0.attrs[u].spec
    ensures D.Sub(t.members, t0.members) && D.Sub(t.ips, t0.ips) && D.Sub(t.devices, t0.devices)
  {
    hide D.OwnDevice, D.OwnIP, D.OwnConfig, NoMembers, D.MemberGone, D.ConfigsGone, D.DevicesGone;
  }

  /** As long as the attr is there, an attempt keeps it so. */
  lemma AttemptKeepsOwn(t0: Tables, service: string, u: string, t: Tables)
    requires OwnRecords(t0, service, u) && D.Underway(t0, service, u, t) && u in t.attrs
    ensures OwnRecords(t, service, u)
  {
    D.AttemptStarts(t0, service, u, t);
    AttrStays(t0, service, u, t);
    hide D.Underway, D.Progress;
    assert forall d :: D.OwnDevice(t, u, d) ==> D.OwnDevice(t0, u, d);
    forall ip | D.OwnIP(t, u, ip) ensures D.OwnIP(t0, u, ip) {
      var n :| (u, n) in t.members && t.members[(u, n)].spec.staticIP == ip;
      assert t0.members[(u, n)].spec.staticIP == ip;
    }
  }

  // ---------------------------------------------------------------- between the attempts

  /** Others leave the attr and the members of the service alone. */
  ghost predicate OthersTurn(t: Tables, service: string, u: string, t': Tables) {
    && SameAt(t'.services, t.services, service) && SameAt(t'.attrs, t.attrs, u)
    && forall n :: SameAt(t'.members, t.members, (u, n))
  }

  /** A device name or a held address of the service has been recorded for another owner. */
  ghost predicate Retaken(t: Tables, service: string, u: string, t': Tables) {
    || (exists d :: D.OwnDevice(t, u, d) && d in t'.devices && t'.devices[d] != service && !SameAt(t'.devices, t.devices, d))
    || (exists ip :: D.OwnIP(t, u, ip) && ip in t'.ips && t'.ips[ip].serviceUUID != u && !SameAt(t'.ips, t.ips, ip))
  }

  lemma SameOwn(t: Tables, service: string, u: string, t': Tables)
    requires OthersTurn(t, service, u, t')
    ensures forall d :: D.OwnDevice(t', u, d) <==> D.OwnDevice(t, u, d)
    ensures forall ip :: D.OwnIP(t', u, ip) <==> D.OwnIP(t, u, ip)
  {
    forall ip ensures D.OwnIP(t', u, ip) <==> D.OwnIP(t, u, ip) {
      if D.OwnIP(t, u, ip) {
        var n :| (u, n) in t.members && t.members[(u, n)].spec.staticIP == ip;
        assert SameAt(t'.members, t.members, (u, n));
        assert (u, n) in t'.members && t'.members[(u, n)].spec.staticIP == ip;
      }
      if D.OwnIP(t', u, ip) {
        var n :| (u, n) in t'.members && t'.members[(u, n)].spec.staticIP == ip;
        assert SameAt(t'.members, t.members, (u, n));
        assert (u, n) in t.members && t.members[(u, n)].spec.staticIP == ip;
      }
    }
  }

  /** Exactly a turn that records one of the names for another owner ends it. */
  lemma TurnKeepsOwn(t: Tables, service: string, u: string, t': Tables)
    requires OwnRecords(t, service, u) && OthersTurn(t, service, u, t')
    ensures OwnRecords(t', service, u) <==> !Retaken(t, service, u, t')
  {
    SameOwn(t, service, u, t');
    hide D.OwnDevice, D.OwnIP;
  }

  /** The creation of another service is such a turn exactly when it uses a device name of the service. */
  lemma CreationRetakes(t: Tables, service: string, u: string, other: string, k: nat, t': Tables)
    requires OwnRecords(t, service, u) && other != service
    requires t' == t.(devices := t'.devices) && V.HasDevices(t.devices, other, k, t'.devices)
    ensures OthersTurn(t, service, u, t')
    ensures Retaken(t, service, u, t') <==> exists m: nat :: m < k && D.OwnDevice(t, u, V.DevOf(t.devices, other, m))
  {
    TurnKeepsOwn(t, service, u, t');
    SameOwn(t, service, u, t');
    Recorded(t.devices, other, k, t'.devices);
    hide V.DevOf, V.HasDevices, Retaken, D.OwnDevice, D.OwnIP;
    if m: nat :| m < k && D.OwnDevice(t, u, V.DevOf(t.devices, other, m)) {
      assert !OwnRecords(t', service, u);
    }
  }

  lemma Recorded(base: Devices.Table, other: string, k: nat, t: Devices.Table)
    requires V.HasDevices(base, other, k, t)
    ensures forall m: nat :: m < k ==> V.DevOf(base, other, m) in t && t[V.DevOf(base, other, m)] == other
    ensures forall d :: d in t && (forall m: nat :: m < k ==> d != V.DevOf(base, other, m)) ==> d in base && t[d] == base[d]
  {
    hide V.Primary, V.Journal;
    forall d | d in t && (forall m: nat :: m < k ==> d != V.DevOf(base, other, m)) ensures d in base && t[d] == base[d] {
      assert k > 0 ==> d != V.DevOf(base, other, 0);
      assert k > 1 ==> d != V.DevOf(base, other, 1);
    }
  }

  // ---------------------------------------------------------------- over all attempts

  /** Attempts and turns of others, one after the other: starts[i] to ends[i] is an attempt, ends[i] to starts[i + 1] a turn. */
  ghost predicate Alternates(service: string, u: string, starts: seq<Tables>, ends: seq<Tables>) {
    && |starts| == |ends|
    && (forall i :: 0 <= i < |starts| ==> D.Underway(starts[i], service, u, ends[i]) && u in starts[i].attrs)
    && (forall i :: 0 <= i < |starts| - 1 ==> OthersTurn(ends[i], service, u, starts[i + 1]))
  }

  lemma {:induction false} StartsWithOwn(service: string, u: string, starts: seq<Tables>, ends: seq<Tables>, i: nat)
    requires Alternates(service, u, starts, ends) && i < |starts| && OwnRecords(starts[0], service, u)
    requires forall j :: 0 <= j < |starts| - 1 ==> !Retaken(ends[j], service, u, starts[j + 1])
    ensures OwnRecords(starts[i], service, u)
  {
    hide OwnRecords, D.Underway, Retaken;
    if i > 0 {
      StartsWithOwn(service, u, starts, ends, i - 1);
      assert SameAt(starts[i].attrs, ends[i - 1].attrs, u);
      AttemptKeepsOwn(starts[i - 1], service, u, ends[i - 1]);
      TurnKeepsOwn(ends[i - 1], service, u, starts[i]);
    }
  }

  /**
   Over all attempts: if no device name and no held address of the service is recorded for another owner
   between them, none of them takes anything of another service.
   */
  lemma AttemptsSpare(service: string, u: string, starts: seq<Tables>, ends: seq<Tables>, i: nat)
    requires Alternates(service, u, starts, ends) && i < |starts| && OwnRecords(starts[0], service, u)
    requires forall j :: 0 <= j < |starts| - 1 ==> !Retaken(ends[j], service, u, starts[j + 1])
    ensures OthersSpared(starts[i], service, u, ends[i])
  {
    StartsWithOwn(service, u, starts, ends, i);
    hide OwnRecords, D.Underway, OthersSpared, Retaken;
    AttemptSpares(starts[i], service, u, ends[i]);
  }

  // ---------------------------------------------------------------- a run that takes a device of another service

  function Attr(status: Status, revision: int): ServiceAttr {
    ServiceAttr("u", revision, ServiceMeta("c", "a", 0, "stateful", status),
                ServiceSpec(0, Resources(0, 0, 0, 0), false, "", "", false, [], "",
                            ServiceVolumes(Devices.DevName(0), V.NO_VOLUME, "", V.NO_VOLUME)))
  }

  /** Service "a" with its device. */
  function First(): Tables {
    Tables(map[Devices.DevName(0) := "a"], map["a" := "u"], map["u" := Attr(Active, 2)], map[], map[], map[])
  }

  /** An attempt at its deletion that stopped after the devices. */
  function Stopped(): Tables {
    First().(devices := map[], attrs := map["u" := Attr(Deleting, 3)])
  }

  const NOTHING := Tables(map[], map[], map[], map[], map[], map[])

  lemma FirstIsFree()
    ensures V.Primary(map[], "b") == Devices.DevName(0)
  {
    var t: Devices.Table := map[];
    Devices.TopIsUnique(t, 0);
    V.PickNone(t, "b", "");
  }

  /**
   It happens: the deletion of "a" stops after its devices, the creation of "b" gets the device that is free
   again, and every attempt at "a" that succeeds then deletes the record of "b".
   */
  lemma RetryTakesDevice()
    ensures D.Underway(First(), "a", "u", Stopped())
    ensures var t := Stopped().(devices := map[Devices.DevName(0) := "b"]);
            && V.HasDevices(Stopped().devices, "b", 1, t.devices)
            && D.Underway(t, "a", "u", NOTHING)
            && forall t' :: D.Underway(t, "a", "u", t') && "a" !in t'.services ==> Devices.DevName(0) !in t'.devices
  {
    StopsAfterDevices();
    FirstIsFree();
    var t := Stopped().(devices := map[Devices.DevName(0) := "b"]);
    assert V.HasDevices(Stopped().devices, "b", 1, t.devices) by { hide V.Primary, Devices.DevName; assert |Devices.DevName(0)| == 10; }
    Succeeds(t);
    forall t' | D.Underway(t, "a", "u", t') && "a" !in t'.services ensures Devices.DevName(0) !in t'.devices {
      D.SuccessLeavesNothing(t, "a", "u", t');
      assert D.OwnDevice(t, "u", Devices.DevName(0)) by { hide Devices.DevName; }
      hide D.Underway, D.OwnDevice, D.OwnIP, D.OwnConfig;
    }
  }

  lemma StopsAfterDevices()
    ensures D.Underway(First(), "a", "u", Stopped())
  {
    hide Devices.DevName, D.OwnIP, D.OwnConfig, D.MemberGone;
    assert |Devices.DevName(0)| == 10;
    assert First().attrs["u" := Stopped().attrs["u"]] == Stopped().attrs;
    assert D.OwnDevice(First(), "u", Devices.DevName(0));
  }

  lemma Succeeds(t: Tables)
    requires t == Stopped().(devices := map[Devices.DevName(0) := "b"])
    ensures D.Underway(t, "a", "u", NOTHING)
  {
    hide Devices.DevName, D.OwnIP, D.OwnConfig, D.MemberGone, D.SameOrDeleting;
    assert |Devices.DevName(0)| == 10;
    assert t.attrs - {"u"} == map[] && t.services - {"a"} == map[];
    assert D.OwnDevice(t, "u", Devices.DevName(0));
  }
}
