/**
 The block devices of one service: createDevice and createServiceVolumes (pkg/managesvc/service.go),
 as one attempt of a creation sees them: nobody else changes the table meanwhile. The interleavings are
 in DeviceRuns.
 */
module ServiceDevices {
  import opened Text
  import opened Records
  import opened Store
  import D = Devices

  /** The name of the i-th device; no name beyond the last one. */
  function Dev(i: nat): string { if i < D.MAX_DEVICES then D.DevName(i) else "" }

  /**
   No other service has the name in other letter case. The service itself may have devices: a deletion
   that found no attr leaves them.
   */
  ghost predicate NewName(base: D.Table, service: string) {
    D.Named(base) && forall d :: d in base && D.ToLower(base[d]) == D.ToLower(service) ==> base[d] == service
  }

  /** The device that is assigned: the first one the service has, but for the excluded one, or the one after the last in use. */
  ghost function Pick(t: D.Table, service: string, exclude: string): nat {
    if i: nat :| D.FirstHit(t, service, exclude, i) then i else D.Top(t)
  }

  ghost function Primary(base: D.Table, service: string): string { Dev(Pick(base, service, "")) }

  ghost function Journal(base: D.Table, service: string): string {
    Dev(Pick(base[Primary(base, service) := service], service, Primary(base, service)))
  }

  /** The devices that a creation uses: the primary device (m == 0), then the journal device. */
  ghost function DevOf(base: D.Table, service: string, m: nat): string {
    if m == 0 then Primary(base, service) else Journal(base, service)
  }

  /** The table with the first k of them. */
  ghost function WithDevices(base: D.Table, service: string, k: nat): D.Table {
    if k == 0 then base
    else if k == 1 then base[Primary(base, service) := service]
    else base[Primary(base, service) := service][Journal(base, service) := service]
  }

  /** The first k of the devices that the creation uses are recorded. */
  ghost predicate HasDevices(base: D.Table, service: string, k: nat, t: D.Table) {
    && k <= 2 && t == WithDevices(base, service, k)
    && (k > 0 ==> Primary(base, service) != "") && (k > 1 ==> Journal(base, service) != "")
  }

  lemma PickHit(t: D.Table, service: string, exclude: string, i: nat)
    requires D.FirstHit(t, service, exclude, i)
    ensures Pick(t, service, exclude) == i
  {
    hide D.DevName, D.ToLower;
  }

  lemma PickNone(t: D.Table, service: string, exclude: string)
    requires D.NoHit(t, service, exclude, D.Top(t))
    ensures Pick(t, service, exclude) == D.Top(t)
  {
    hide D.ToLower;
    forall i: nat ensures !D.FirstHit(t, service, exclude, i) {}
  }

  /** The first hit, or none: then it is the device after the last. */
  lemma PickCases(t: D.Table, service: string, exclude: string)
    requires NewName(t, service)
    ensures var p := Pick(t, service, exclude);
            if D.FirstHit(t, service, exclude, p) then p < D.Top(t) && Dev(p) in t && t[Dev(p)] == service && Dev(p) != exclude
            else p == D.Top(t) && D.NoHit(t, service, exclude, p) && Dev(p) !in t
    ensures Pick(t, service, exclude) <= D.MAX_DEVICES
  {
    hide D.ToLower;
    var p := Pick(t, service, exclude);
    var m := FirstUpTo(t, service, exclude, D.Top(t));
    if m < D.Top(t) { PickHit(t, service, exclude, m); } else { PickNone(t, service, exclude); }
    NoEmptyName(t);
  }

  lemma {:induction false} FirstUpTo(t: D.Table, service: string, exclude: string, n: nat) returns (m: nat)
    ensures m <= n && D.NoHit(t, service, exclude, m) && (m < n ==> D.FirstHit(t, service, exclude, m))
  {
    hide D.Hit;
    m := 0;
    if n > 0 {
      m := FirstUpTo(t, service, exclude, n - 1);
      if m == n - 1 && !D.Hit(t, service, exclude, m) { m := n; }
    }
  }

  lemma NoEmptyName(t: D.Table)
    requires D.Named(t)
    ensures "" !in t
  {
    forall d | d in t ensures |d| == 10 { assert d == D.DevName(D.Index(d)); }
  }

  /** The outcome for any listing is that device, found or free, or the error after the last one. */
  function NextOf(dev: string, t: D.Table): D.Assignment {
    if dev == "" then D.ErrInternal else if dev in t then D.HasDevice(dev) else D.Assigned(dev)
  }

  lemma PickOutcome(t: D.Table, service: string, exclude: string)
    requires NewName(t, service)
    ensures D.Outcome(t, service, exclude, NextOf(Dev(Pick(t, service, exclude)), t))
  {
    PickCases(t, service, exclude);
    var p := Pick(t, service, exclude);
    assert p < D.MAX_DEVICES ==> |D.DevName(p)| == 10;
    hide D.DevName, D.ToLower, D.NoHit, Pick, D.Top, NewName;
  }

  // ---------------------------------------------------------------- what stays

  lemma RecordedIsNamed(t: D.Table, i: nat, service: string)
    requires NewName(t, service) && i < D.MAX_DEVICES
    ensures NewName(t[Dev(i) := service], service)
  {
    hide D.ToLower, D.DevName;
    assert D.Index(D.DevName(i)) == i;
  }

  lemma TopNext(t: D.Table, service: string)
    requires D.Top(t) < D.MAX_DEVICES
    ensures D.Top(t[Dev(D.Top(t)) := service]) == D.Top(t) + 1
  {
    var n := D.Top(t);
    var t' := t[D.DevName(n) := service];
    forall i: nat | n < i < D.MAX_DEVICES ensures D.DevName(i) !in t' {
      D.LessByIndex(i, n);
    }
    D.TopIsUnique(t', n + 1);
  }

  /** Recording the device after the last one makes it a hit and no other. */
  lemma HitAfter(t: D.Table, service: string, exclude: string, i: nat)
    requires D.Top(t) < D.MAX_DEVICES && i < D.MAX_DEVICES && exclude != Dev(D.Top(t))
    ensures var t' := t[Dev(D.Top(t)) := service];
            D.Hit(t', service, exclude, i) <==> i == D.Top(t) || D.Hit(t, service, exclude, i)
  {
    D.LessByIndex(i, D.Top(t));
    hide D.DevName, D.ToLower;
  }

  /** Once recorded, the device is found again. */
  lemma PickStays(t: D.Table, service: string, exclude: string)
    requires NewName(t, service) && Dev(Pick(t, service, exclude)) != "" && (exclude == "" || exclude in t)
    ensures Pick(t[Dev(Pick(t, service, exclude)) := service], service, exclude) == Pick(t, service, exclude)
  {
    var p := Pick(t, service, exclude);
    PickCases(t, service, exclude);
    if D.FirstHit(t, service, exclude, p) {
      assert t[Dev(p) := service] == t;
    } else {
      var t' := t[Dev(p) := service];
      forall i: nat | i < D.MAX_DEVICES ensures D.Hit(t', service, exclude, i) <==> i == p || D.Hit(t, service, exclude, i) {
        HitAfter(t, service, exclude, i);
      }
      hide D.Hit, Pick, D.Top, Dev, NewName;
      assert D.FirstHit(t', service, exclude, p);
      PickHit(t', service, exclude, p);
    }
  }

  /** Recording the journal device does not change which one is the primary. */
  lemma PrimaryStays(t: D.Table, service: string, p: nat)
    requires NewName(t, service) && D.FirstHit(t, service, "", p) && Dev(Pick(t, service, Dev(p))) != ""
    ensures D.FirstHit(t[Dev(Pick(t, service, Dev(p))) := service], service, "", p)
  {
    var j := Pick(t, service, Dev(p));
    PickCases(t, service, Dev(p));
    if D.FirstHit(t, service, Dev(p), j) {
      assert t[Dev(j) := service] == t;
    } else {
      var t' := t[Dev(j) := service];
      assert p < j;
      forall i: nat | i < D.MAX_DEVICES ensures D.Hit(t', service, "", i) <==> i == j || D.Hit(t, service, "", i) {
        HitAfter(t, service, "", i);
      }
      hide D.Hit, Pick, D.Top, Dev, NewName;
    }
  }

  lemma PrimaryIsHit(base: D.Table, service: string)
    requires NewName(base, service) && Primary(base, service) != ""
    ensures var t := WithDevices(base, service, 1);
            NewName(t, service) && D.FirstHit(t, service, "", Pick(base, service, "")) && Primary(base, service) in t
  {
    var p := Pick(base, service, "");
    var t := base[Dev(p) := service];
    RecordedIsNamed(base, p, service);
    PickStays(base, service, "");
    PickCases(t, service, "");
    hide D.FirstHit, D.NoHit, Pick, D.Top, Dev, NewName;
  }

  /** Whatever of the two is recorded, the next assignment gives the device that the creation uses. */
  lemma StillPicked(base: D.Table, service: string, k: nat, m: nat, t: D.Table)
    requires NewName(base, service) && HasDevices(base, service, k, t) && m <= k && m <= 1
    ensures NewName(t, service) && (m == 1 ==> Primary(base, service) in t)
    ensures Dev(Pick(t, service, if m == 0 then "" else Primary(base, service))) == DevOf(base, service, m)
  {
    if k > 0 {
      PrimaryIsHit(base, service);
      var t1 := WithDevices(base, service, 1);
      var p := Pick(base, service, "");
      if k == 1 {
        PickHit(t1, service, "", p);
      } else {
        var e := Primary(base, service);
        assert Journal(base, service) == Dev(Pick(t1, service, e));
        RecordedIsNamed(t1, Pick(t1, service, e), service);
        PrimaryStays(t1, service, p);
        PickHit(t, service, "", p);
        PickStays(t1, service, e);
      }
    }
  }

  /** A device of the service that is not excluded: one it has, or the next one of the order. */
  method CreateDevice(db: DB, service: string, exclude: string, ghost base: D.Table, ghost k: nat, ghost m: nat)
    returns (r: Option<string>, ghost n: nat)
    requires db.Valid() && NewName(base, service) && HasDevices(base, service, k, db.devMap)
    requires m <= k && m <= 1 && exclude == if m == 0 then "" else Primary(base, service)
    modifies db
    ensures db.Valid() && db.Contents() == old(db.Contents()).(devices := db.devMap)
    ensures k <= n && HasDevices(base, service, n, db.devMap) && (n > k ==> m == k && n == k + 1)
    ensures r.Some? ==> r.value == DevOf(base, service, m) && n > m
    ensures db.reliable && DevOf(base, service, m) != "" ==> r.Some?
  {
    hide D.DevName, D.ToLower, D.Outcome, D.Assign, D.ListsDevices, D.Named, NewName, DevOf, HasDevices;
    n := k;
    for i := 0 to MAX_RETRY_COUNT
      invariant db.Valid() && db.Contents() == old(db.Contents()) && n == k
      invariant db.reliable && DevOf(base, service, m) != "" ==> i == 0
    {
      var listing := db.ListDevices();
      if listing.None? {
        return None, k;
      }
      var a := D.AssignDeviceName(listing.value, service, exclude);
      AssignedNext(base, service, k, m, db.devMap, listing.value);
      if a.HasDevice? && a.dev != "" {
        return Some(a.dev), if m == k then k + 1 else k;
      }
      if !a.Assigned? {
        return None, k;
      }
      var err := db.CreateDevice(a.dev, service);
      n := if db.devMap == old(db.devMap) then k else k + 1;
      if err == Some(ConditionalCheckFailed) {
        continue;
      }
      if err.Some? {
        return None, n;
      }
      return Some(a.dev), n;
    }
    r := None;
  }

  lemma AssignedNext(base: D.Table, service: string, k: nat, m: nat, t: D.Table, listing: seq<D.Device>)
    requires NewName(base, service) && HasDevices(base, service, k, t) && m <= k && m <= 1 && D.ListsDevices(t, listing)
    ensures var dev := DevOf(base, service, m);
            && D.Assign(listing, service, if m == 0 then "" else Primary(base, service)) == NextOf(dev, t)
            && (dev != "" && m == k ==> HasDevices(base, service, k + 1, t[dev := service]))
            && (dev in t ==> t[dev := service] == t) && (m < k ==> dev in t)
  {
    hide D.Assign, D.ListsDevices, NewName, Pick, Dev, HasDevices, DevOf, Primary, NextOf;
    StillPicked(base, service, k, m, t);
    UsedIsRecorded(base, service, k, m, t);
    PickAssigned(t, service, if m == 0 then "" else Primary(base, service), listing);
  }

  /** Any listing of the table leads to that device. */
  lemma PickAssigned(t: D.Table, service: string, exclude: string, listing: seq<D.Device>)
    requires NewName(t, service) && D.ListsDevices(t, listing) && (exclude == "" || exclude in t)
    ensures var dev := Dev(Pick(t, service, exclude));
            D.Assign(listing, service, exclude) == NextOf(dev, t) && (dev in t ==> t[dev := service] == t)
  {
    PickOutcome(t, service, exclude);
    PickCases(t, service, exclude);
    NoEmptyName(t);
    assert D.Named(t);
    hide D.Assign, D.Outcome, D.ListsDevices, D.Named, NewName, Pick, D.FirstHit, D.NoHit, NextOf, D.DevName;
    D.AssignOutcome(t, listing, service, exclude);
    D.OutcomeIsUnique(t, service, exclude, D.Assign(listing, service, exclude), NextOf(Dev(Pick(t, service, exclude)), t));
  }

  lemma UsedIsRecorded(base: D.Table, service: string, k: nat, m: nat, t: D.Table)
    requires HasDevices(base, service, k, t) && m <= k && m <= 1
    ensures m < k ==> DevOf(base, service, m) in t
    ensures DevOf(base, service, m) != "" && m == k ==> HasDevices(base, service, k + 1, t[DevOf(base, service, m) := service])
  {
    hide Primary, Journal;
  }

  const NO_VOLUME := ServiceVolume("", 0, 0, false)

  /** The volumes of a service whose creation found these devices. */
  ghost function VolumesAt(base: D.Table, service: string, volume: ServiceVolume, journalVolume: Option<ServiceVolume>): ServiceVolumes {
    match journalVolume
    case None => ServiceVolumes(Primary(base, service), volume, "", NO_VOLUME)
    case Some(j) => ServiceVolumes(Primary(base, service), volume, Journal(base, service), j)
  }

  function Wanted(journalVolume: Option<ServiceVolume>): nat { if journalVolume.Some? then 2 else 1 }

  /** The devices of interrupted attempts are found again: every attempt that succeeds returns the same pair. */
  method CreateServiceVolumes(db: DB, service: string, volume: ServiceVolume, journalVolume: Option<ServiceVolume>,
                              ghost base: D.Table, ghost k: nat)
    returns (r: Option<ServiceVolumes>, ghost n: nat)
    requires db.Valid() && NewName(base, service) && HasDevices(base, service, k, db.devMap) && k <= Wanted(journalVolume)
    modifies db
    ensures db.Valid() && db.Contents() == old(db.Contents()).(devices := db.devMap)
    ensures k <= n <= Wanted(journalVolume) && HasDevices(base, service, n, db.devMap)
    ensures r.Some? ==> n == Wanted(journalVolume) && r.value == VolumesAt(base, service, volume, journalVolume)
    ensures r.Some? ==> r.value.primaryDeviceName == Primary(base, service) && r.value.primaryVolume == volume
    ensures r.Some? && journalVolume.Some? ==>
              r.value.journalDeviceName == Journal(base, service) && r.value.journalVolume == journalVolume.value
    ensures r.Some? && journalVolume.None? ==>
              r.value.journalDeviceName == "" && r.value.journalVolume == ServiceVolume("", 0, 0, false)
    ensures db.reliable && Primary(base, service) != "" && (journalVolume.Some? ==> Journal(base, service) != "") ==> r.Some?
  {
    hide HasDevices, NewName;
    n := k;
    var primary: Option<string>;
    primary, n := CreateDevice(db, service, "", base, n, 0);
    if primary.None? {
      return None, n;
    }
    if journalVolume.None? {
      return Some(ServiceVolumes(primary.value, volume, "", NO_VOLUME)), n;
    }
    var journal: Option<string>;
    journal, n := CreateDevice(db, service, primary.value, base, n, 1);
    if journal.None? {
      return None, n;
    }
    r := Some(ServiceVolumes(primary.value, volume, journal.value, journalVolume.value));
  }
}
